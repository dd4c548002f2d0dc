/**
 * Types shared by the REST metric modules: samples, data item and component
 * definitions, event rules, request queries, and the collaborators the
 * metric engines call but do not define (the database, the rule evaluator,
 * the data filter, number parsing and the clock).
 */
module Common {

  /** An instant, in whole seconds counted from DateTime.MinValue. */
  type Time = nat

  /** DateTime.MinValue: the earliest instant, also used as "not set". */
  const MinValue: Time := 0

  datatype Option<T> = None | Some(value: T)

  /** The one run-time failure the modelled code can raise. */
  datatype Fault = NullReference

  datatype Result<T> = Ok(value: T) | Err(fault: Fault)

  /**
   * What IRestModule.GetResponse does with a request: it declines it
   * (returns false), handles it and possibly writes a payload, or lets an
   * exception escape to the server.
   */
  datatype Reply<T> = NotHandled | Handled(written: Option<T>) | Threw(fault: Fault)

  /** One stored observation of a data item (CDATA is the text value). */
  datatype Sample = Sample(id: string, timestamp: Time, cdata: string, condition: string)

  datatype DataItem = DataItem(id: string, category: string, itemType: string, units: string)

  datatype Component = Component(id: string, componentType: string)

  /** A closed time range with a label (AvailabilityEvent). */
  datatype Interval = Interval(name: string, start: Time, stop: Time)

  /** A rule trigger: only plain triggers carry a data filter. */
  datatype Trigger = Trigger(filter: string) | MultiTrigger

  datatype EventResponse = EventResponse(value: string, triggers: seq<Trigger>)

  /** A configured rule ("Status", "Program Status"). */
  datatype Event = Event(name: string, responses: seq<EventResponse>)

  /** What the rule evaluator returns when some response matches. */
  datatype Evaluation = Evaluation(value: string, description: string)

  /** The parsed request; `isValid` is RequestQuery.IsValid. */
  datatype Query = Query(isValid: bool, from: Time, to: Time, at: Time, count: int,
                         increment: int, details: bool)

  /** The arguments of Database.ReadSamples; `ids == None` reads every data item. */
  datatype SampleQuery = SampleQuery(ids: Option<seq<string>>, from: Time, to: Time, at: Time, count: int)

  /** The stored state of the requested device. */
  datatype Device = Device(agentFound: bool, components: seq<Component>, dataItems: seq<DataItem>,
                           read: SampleQuery -> seq<Sample>)

  /**
   * The collaborators: the events configuration file (None when it cannot be
   * read), Event.Evaluate over the SampleInfo list built from a snapshot,
   * DataFilter.IsMatch, double.TryParse and DateTime.UtcNow.
   */
  datatype Env = Env(config: Option<seq<Event>>,
                     evaluate: (Event, seq<DataItem>, seq<Component>, seq<Sample>) -> Option<Evaluation>,
                     isMatch: (string, DataItem, seq<Component>) -> bool,
                     parse: string -> Option<real>,
                     now: Time)

  /** A rule bound to the definitions of one request. */
  datatype Rule = Rule(env: Env, event: Event, dataItems: seq<DataItem>, components: seq<Component>)
  {
    function Evaluate(snapshot: seq<Sample>): Option<Evaluation>
    {
      env.evaluate(event, dataItems, components, snapshot)
    }
  }

  /** The end of a window: `to` when set, otherwise the current instant. */
  function WindowEnd(to: Time, now: Time): Time
  {
    if to > MinValue then to else now
  }

  function Min(a: int, b: int): int { if a < b then a else b }

  function Max(a: int, b: int): int { if a < b then b else a }

  /** ASCII lower-casing, the part of String.ToLower the rule names use. */
  function LowerChar(c: char): char
  {
    if 'A' <= c <= 'Z' then (c as int + 32) as char else c
  }

  function Lower(s: string): (r: string)
    ensures |r| == |s|
  {
    seq(|s|, i requires 0 <= i < |s| => LowerChar(s[i]))
  }

  /** The first configured event whose name matches, ignoring case. */
  function FindEvent(events: seq<Event>, name: string): (r: Option<Event>)
    ensures r.Some? ==> r.value in events && Lower(r.value.name) == Lower(name)
    ensures r.None? ==> forall e :: e in events ==> Lower(e.name) != Lower(name)
  {
    if events == [] then None
    else if Lower(events[0].name) == Lower(name) then Some(events[0])
    else FindEvent(events[1..], name)
  }

  /** The rule found is the first match: no earlier configured event matches the name. */
  lemma {:induction false} FindEventFirst(events: seq<Event>, name: string)
    ensures var r := FindEvent(events, name);
            r.Some? ==> exists k :: 0 <= k < |events| && events[k] == r.value &&
                                    forall j :: 0 <= j < k ==> Lower(events[j].name) != Lower(name)
    decreases |events|
  {
    if events != [] && Lower(events[0].name) != Lower(name) {
      var rest := events[1..];
      FindEventFirst(rest, name);
      if FindEvent(rest, name).Some? {
        var k :| 0 <= k < |rest| && rest[k] == FindEvent(rest, name).value &&
                 forall j :: 0 <= j < k ==> Lower(rest[j].name) != Lower(name);
        assert events[k + 1] == rest[k];
        forall j | 0 <= j < k + 1 ensures Lower(events[j].name) != Lower(name) {
          if 0 < j {
            assert events[j] == rest[j - 1];
          }
        }
      }
    }
  }

  /** GetEvent: look the rule up in the events configuration, when there is one. */
  function GetEvent(config: Option<seq<Event>>, name: string): Option<Event>
  {
    if config.None? then None else FindEvent(config.value, name)
  }
}

/**
 * The "Programs" tracker of mod-rest-programs/Module.cs (class Module): replays
 * the "Program Status" rule and the PROGRAM / EXECUTION samples instant by
 * instant, and drives a two-level state machine — an open program, and an
 * open event inside it. A change of label closes the open event and opens
 * the next; "Stopped" or "Completed" closes the program; a change of
 * program name closes it too. Whatever is still open is closed at the end
 * of the window.
 */
module ProgramsModule {
  import opened Common
  import opened Replay
  import EventIds
  import opened ProgramData

  /**
   * The loop's variables: the programs emitted so far, the open program
   * and its open event, the previous label and the previous program name
   * (None stands for null).
   */
  datatype Tracker = Tracker(programs: seq<Program>, program: Option<Program>, programEvent: Option<ProgramEvent>,
                             previousValue: Option<string>, previousProgramName: Option<string>)

  const Initial := Tracker([], None, None, None, None)

  /**
   * The open program's stop moves to `time`; when the program name changed
   * the program is closed, and emitted only when it has an open event (which
   * is closed at `time` and added to it).
   */
  function Interrupt(st: Tracker, name: string, time: Time): Tracker
  {
    if st.program.None? then st
    else
      var p := st.program.value.(stop := time);
      if Some(name) == st.previousProgramName then st.(program := Some(p))
      else
        var programs := if st.programEvent.Some?
                        then st.programs + [p.(events := p.events + [st.programEvent.value.(stop := time)])]
                        else st.programs;
        st.(programs := programs, program := None, programEvent := None, previousValue := None)
  }

  /** With no open program, a valid name and a label that does not end a program, a program starts at `time`. */
  function Open(st: Tracker, name: string, value: string, time: Time): Tracker
  {
    if st.program.None? && ValidName(name) && !Closing(value)
    then st.(program := Some(Program(name, time, MinValue, false, [])))
    else st
  }

  /**
   * A new label on an open program closes the open event at `time`; then
   * either a new event with that label starts, or ("Stopped"/"Completed")
   * the program is emitted with its Completed flag. The label is remembered
   * in every case.
   */
  function Advance(st: Tracker, response: Evaluation, execution: string, time: Time): Tracker
  {
    var value := response.value;
    var next :=
      if st.program.None? || Some(value) == st.previousValue then st
      else
        var p := st.program.value;
        var p' := if st.programEvent.Some? then p.(events := p.events + [st.programEvent.value.(stop := time)]) else p;
        if !Closing(value)
        then st.(program := Some(p'), programEvent := Some(ProgramEvent(value, response.description, execution, time, MinValue)))
        else st.(programs := st.programs + [p'.(completed := value == CompletedLabel)], program := None, programEvent := None);
    next.(previousValue := Some(value))
  }

  /** One pass of the timestamp loop, after the reads. */
  function Observe(st: Tracker, r: Reading, time: Time): Tracker
  {
    var next :=
      if r.response.None? then st
      else
        var value := r.response.value.value;
        Advance(Open(Interrupt(st, r.programName, time), r.programName, value, time), r.response.value, r.execution, time);
    next.(previousProgramName := Some(r.programName))
  }

  /** The loop over the first n instants; the first failed read ends it. */
  function Run(readings: seq<Result<Reading>>, times: seq<Time>, n: nat): Result<Tracker>
    requires |readings| == |times| && n <= |times|
  {
    if n == 0 then Ok(Initial)
    else
      match Run(readings, times, n - 1)
      case Err(f) => Err(f)
      case Ok(st) => if readings[n - 1].Err? then Err(readings[n - 1].fault) else Ok(Observe(st, readings[n - 1].value, times[n - 1]))
  }

  /** After the loop: the open event and program are closed at the window end, and the program emitted. */
  function Close(st: Tracker, end: Time): seq<Program>
  {
    if st.program.None? then st.programs
    else
      var p := st.program.value;
      var events := if st.programEvent.Some? then p.events + [st.programEvent.value.(stop := end)] else p.events;
      st.programs + [p.(events := events, stop := end)]
  }

  // ----- What the emitted programs look like -----

  /** No event is labelled Stopped or Completed, and each event starts where the previous one stopped. */
  ghost predicate EventsChained(evs: seq<ProgramEvent>)
  {
    (forall k :: 0 <= k < |evs| ==> !Closing(evs[k].name)) &&
    (forall j, k :: 0 <= j && k == j + 1 && k < |evs| ==> evs[j].stop == evs[k].start)
  }

  ghost predicate EventsForward(evs: seq<ProgramEvent>)
  {
    forall k :: 0 <= k < |evs| ==> evs[k].start <= evs[k].stop
  }

  /** An emitted program's events are chained and the last one stops when the program stops. */
  ghost predicate Shaped(p: Program)
  {
    EventsChained(p.events) && (p.events != [] ==> p.events[|p.events| - 1].stop == p.stop)
  }

  /** An emitted program runs forward, and its first event does not start before it. */
  ghost predicate Ordered(p: Program)
  {
    EventsForward(p.events) && p.start <= p.stop && (p.events != [] ==> p.start <= p.events[0].start)
  }

  /** The open program, with its open event, as seen at instant t. */
  ghost predicate OpenOk(p: Program, pe: Option<ProgramEvent>, t: Time)
  {
    !p.completed && p.start <= t && EventsChained(p.events) && EventsForward(p.events) &&
    (p.events != [] ==> p.start <= p.events[0].start && pe.Some? && p.events[|p.events| - 1].stop == pe.value.start) &&
    (pe.Some? ==> !Closing(pe.value.name) && p.start <= pe.value.start <= t)
  }

  /** The loop invariant of the state machine, at instant t. */
  ghost predicate Core(st: Tracker, t: Time)
  {
    (st.program.None? ==> st.programEvent.None?) &&
    (st.program.Some? ==> OpenOk(st.program.value, st.programEvent, t)) &&
    (forall k :: 0 <= k < |st.programs| ==> Shaped(st.programs[k]) && Ordered(st.programs[k]))
  }

  /** While a program is open, the previous label is one that does not end it. */
  ghost predicate Settled(st: Tracker)
  {
    st.program.Some? ==> st.previousValue.Some? && !Closing(st.previousValue.value)
  }

  ghost predicate Inv(st: Tracker, t: Time)
  {
    Core(st, t) && Settled(st)
  }

  /** Between Open and Advance: an open program was either there before (stop moved to `time`) or has just started. */
  ghost predicate Pending(st: Tracker, value: string, time: Time)
  {
    st.program.Some? ==>
      (st.previousValue.Some? && !Closing(st.previousValue.value) && st.program.value.stop == time) ||
      (st.programEvent.None? && st.program.value.events == [] && !Closing(value))
  }

  lemma CoreLater(st: Tracker, t: Time, time: Time)
    requires Core(st, t) && t <= time
    ensures Core(st, time)
  {
  }

  lemma InterruptKeeps(st: Tracker, name: string, value: string, time: Time, t: Time)
    requires Inv(st, t) && t <= time
    ensures Core(Interrupt(st, name, time), time)
    ensures Pending(Interrupt(st, name, time), value, time)
  {
    if st.program.Some? && Some(name) != st.previousProgramName && st.programEvent.Some? {
      var p := st.program.value.(stop := time);
      var q := p.(events := p.events + [st.programEvent.value.(stop := time)]);
      assert Shaped(q) && Ordered(q) by {
        assert forall k :: 0 <= k < |p.events| ==> q.events[k] == p.events[k];
      }
      var r := Interrupt(st, name, time);
      assert r.programs == st.programs + [q];
      assert forall k :: 0 <= k < |st.programs| ==> r.programs[k] == st.programs[k];
    }
  }

  lemma OpenKeeps(st: Tracker, name: string, value: string, time: Time)
    requires Core(st, time) && Pending(st, value, time)
    ensures Core(Open(st, name, value, time), time)
    ensures Pending(Open(st, name, value, time), value, time)
  {
  }

  lemma AdvanceKeeps(st: Tracker, response: Evaluation, execution: string, time: Time)
    requires Core(st, time) && Pending(st, response.value, time)
    ensures Inv(Advance(st, response, execution, time), time)
  {
    var value := response.value;
    if st.program.Some? && Some(value) != st.previousValue {
      var p := st.program.value;
      var p' := if st.programEvent.Some? then p.(events := p.events + [st.programEvent.value.(stop := time)]) else p;
      assert forall k :: 0 <= k < |p.events| ==> p'.events[k] == p.events[k];
      if Closing(value) {
        var q := p'.(completed := value == CompletedLabel);
        assert Shaped(q) && Ordered(q);
        var r := Advance(st, response, execution, time);
        assert r.programs == st.programs + [q];
        assert forall k :: 0 <= k < |st.programs| ==> r.programs[k] == st.programs[k];
      } else {
        assert OpenOk(p', Some(ProgramEvent(value, response.description, execution, time, MinValue)), time);
      }
    }
  }

  /** One pass of the loop keeps the invariant, moving it to the new instant. */
  lemma ObserveKeeps(st: Tracker, r: Reading, t: Time, time: Time)
    requires Inv(st, t) && t <= time
    ensures Inv(Observe(st, r, time), time)
  {
    if r.response.None? {
      CoreLater(st, t, time);
    } else {
      var value := r.response.value.value;
      var s1 := Interrupt(st, r.programName, time);
      InterruptKeeps(st, r.programName, value, time, t);
      var s2 := Open(s1, r.programName, value, time);
      OpenKeeps(s1, r.programName, value, time);
      AdvanceKeeps(s2, r.response.value, r.execution, time);
    }
  }

  /** The time of the last instant looked at, MinValue before the first. */
  function LastTime(times: seq<Time>, n: nat): Time
    requires n <= |times|
  {
    if n == 0 then MinValue else times[n - 1]
  }

  /** Over increasing instants, every state the loop reaches satisfies the invariant. */
  lemma {:induction false} RunKeeps(readings: seq<Result<Reading>>, times: seq<Time>, n: nat)
    requires |readings| == |times| && n <= |times| && StrictlyIncreasing(times)
    ensures Run(readings, times, n).Ok? ==> Inv(Run(readings, times, n).value, LastTime(times, n))
  {
    if n > 0 {
      RunKeeps(readings, times, n - 1);
      var prev := Run(readings, times, n - 1);
      if prev.Ok? && readings[n - 1].Ok? {
        assert LastTime(times, n - 1) <= times[n - 1] by {
          if n > 1 {
            assert times[n - 2] < times[n - 1];
          }
        }
        ObserveKeeps(prev.value, readings[n - 1].value, LastTime(times, n - 1), times[n - 1]);
      }
    }
  }

  /**
   * The window-end close keeps the programs already emitted and, when a
   * program is open, emits it last, stopped at the end, with its open event
   * closed at the end and added to its events; nothing else of it changes.
   */
  lemma CloseResult(st: Tracker, end: Time)
    ensures st.program.None? ==> Close(st, end) == st.programs
    ensures st.program.Some? ==>
              var r := Close(st, end);
              var p := st.program.value;
              |r| == |st.programs| + 1 && r[..|st.programs|] == st.programs &&
              r[|st.programs|].name == p.name && r[|st.programs|].start == p.start &&
              r[|st.programs|].stop == end && r[|st.programs|].completed == p.completed &&
              r[|st.programs|].events ==
                (if st.programEvent.Some? then p.events + [st.programEvent.value.(stop := end)] else p.events)
  {
    if st.program.Some? {
      assert Close(st, end)[..|st.programs|] == st.programs;
    }
  }

  /**
   * Every emitted program has chained events, none labelled Stopped or
   * Completed, the last stopping when the program stops; when the window
   * does not end before the last instant, every program also runs forward.
   */
  lemma CloseShaped(st: Tracker, t: Time, end: Time)
    requires Inv(st, t)
    ensures forall p :: p in Close(st, end) ==> Shaped(p)
    ensures t <= end ==> forall p :: p in Close(st, end) ==> Ordered(p)
  {
    forall x | x in st.programs ensures Shaped(x) && Ordered(x) {
      var k :| 0 <= k < |st.programs| && st.programs[k] == x;
    }
    if st.program.Some? {
      var p := st.program.value;
      var events := p.events;
      if st.programEvent.Some? {
        var last := st.programEvent.value.(stop := end);
        ChainAppend(p.events, last);
        if t <= end {
          ForwardAppend(p.events, last);
        }
        events := p.events + [last];
        assert p.events != [] ==> events[0] == p.events[0];
      }
      var q := p.(events := events, stop := end);
      assert Close(st, end) == st.programs + [q];
      assert Shaped(q);
      assert t <= end ==> Ordered(q);
    }
  }

  /** An event that starts where the last one stopped, and is not a closing label, extends the chain. */
  lemma ChainAppend(evs: seq<ProgramEvent>, e: ProgramEvent)
    requires EventsChained(evs) && !Closing(e.name)
    requires evs != [] ==> evs[|evs| - 1].stop == e.start
    ensures EventsChained(evs + [e])
  {
    var all := evs + [e];
    assert forall k :: 0 <= k < |evs| ==> all[k] == evs[k];
  }

  /** An event that runs forward keeps a list of such events running forward. */
  lemma ForwardAppend(evs: seq<ProgramEvent>, e: ProgramEvent)
    requires EventsForward(evs) && e.start <= e.stop
    ensures EventsForward(evs + [e])
  {
    var all := evs + [e];
    assert forall k :: 0 <= k < |evs| ==> all[k] == evs[k];
  }

  // ----- Single-step behaviour -----

  /**
   * A program is started only on a response whose label does not end a
   * program, with a valid name, when none is open or the name just changed;
   * it carries the name and starts at the instant. With no program open,
   * such a response always starts one.
   */
  lemma ObserveOpening(st: Tracker, r: Reading, time: Time)
    ensures var next := Observe(st, r, time);
            r.response.Some? && next.program.Some? && (st.program.None? || st.previousProgramName != Some(r.programName)) ==>
              ValidName(r.programName) && !Closing(r.response.value.value) &&
              next.program.value.name == r.programName && next.program.value.start == time
    ensures st.program.None? && r.response.Some? && ValidName(r.programName) && !Closing(r.response.value.value) ==>
              Observe(st, r, time).program.Some?
  {
  }

  /**
   * A "Stopped" or "Completed" label, with the same program name, closes the
   * open program at the instant and emits it, Completed exactly when the
   * label is "Completed".
   */
  lemma ObserveClosing(st: Tracker, r: Reading, time: Time)
    requires Settled(st)
    requires st.program.Some? && st.previousProgramName == Some(r.programName)
    requires r.response.Some? && Closing(r.response.value.value)
    ensures var next := Observe(st, r, time);
            next.program.None? && next.programEvent.None? &&
            |next.programs| == |st.programs| + 1 && next.programs[..|st.programs|] == st.programs &&
            next.programs[|st.programs|].name == st.program.value.name &&
            next.programs[|st.programs|].stop == time &&
            (next.programs[|st.programs|].completed <==> r.response.value.value == CompletedLabel)
  {
    var next := Observe(st, r, time);
    assert next.programs == st.programs + [next.programs[|st.programs|]];
  }

  /**
   * A change of program name on a response closes the open program at the
   * instant and forgets the previous label; the program is emitted, not
   * completed, exactly when it had an open event.
   */
  lemma ObserveRename(st: Tracker, r: Reading, time: Time, t: Time)
    requires Inv(st, t)
    requires st.program.Some? && st.previousProgramName != Some(r.programName) && r.response.Some?
    ensures var next := Observe(st, r, time);
            next.programs[..|st.programs|] == st.programs &&
            (st.programEvent.Some? ==>
               |next.programs| == |st.programs| + 1 &&
               next.programs[|st.programs|].name == st.program.value.name &&
               next.programs[|st.programs|].stop == time && !next.programs[|st.programs|].completed) &&
            (st.programEvent.None? ==> next.programs == st.programs)
    ensures Interrupt(st, r.programName, time).previousValue.None?
  {
    var s1 := Interrupt(st, r.programName, time);
    assert s1.program.None?;
    var value := r.response.value.value;
    var s2 := Open(s1, r.programName, value, time);
    assert s2.program.Some? ==> s2.programEvent.None? && !Closing(value);
    var next := Observe(st, r, time);
    assert next.programs == s1.programs;
    if st.programEvent.Some? {
      assert s1.programs == st.programs + [s1.programs[|st.programs|]];
    }
  }

  /**
   * A pass emits at most one program, keeps those already emitted, always
   * records the program name, and an emitted program is Completed only when
   * the response at that instant was "Completed". A pass without a response
   * changes nothing else.
   */
  lemma ObserveEmits(st: Tracker, r: Reading, time: Time, t: Time)
    requires Inv(st, t)
    ensures var next := Observe(st, r, time);
            |st.programs| <= |next.programs| <= |st.programs| + 1 &&
            next.programs[..|st.programs|] == st.programs &&
            next.previousProgramName == Some(r.programName)
    ensures var next := Observe(st, r, time);
            |next.programs| == |st.programs| + 1 && next.programs[|st.programs|].completed ==>
              r.response.Some? && r.response.value.value == CompletedLabel
    ensures r.response.None? ==> Observe(st, r, time).(previousProgramName := st.previousProgramName) == st
  {
    if r.response.Some? {
      var value := r.response.value.value;
      var s1 := Interrupt(st, r.programName, time);
      var s2 := Open(s1, r.programName, value, time);
      var next := Observe(st, r, time);
      assert s1.programs[..|st.programs|] == st.programs;
      if |s1.programs| == |st.programs| + 1 {
        assert !s1.programs[|st.programs|].completed;
        assert s2.program.Some? ==> !Closing(value);
        assert next.programs == s1.programs;
      } else {
        assert s1.programs == st.programs;
        if |next.programs| == |st.programs| + 1 {
          assert next.programs[..|st.programs|] == st.programs;
        }
      }
    }
  }

  // ----- GetResponse -----

  /** The ids read: the rule's ids, then the PROGRAM item's id and the EXECUTION item's id when there are such items. */
  function ReadIds(ids: seq<string>, programItem: Option<DataItem>, executionItem: Option<DataItem>): (r: seq<string>)
    ensures |r| >= |ids| && r[..|ids|] == ids
    ensures forall id :: id in r <==> id in ids || (programItem.Some? && id == programItem.value.id) ||
                                      (executionItem.Some? && id == executionItem.value.id)
  {
    ids + (if programItem.Some? then [programItem.value.id] else []) +
    (if executionItem.Some? then [executionItem.value.id] else [])
  }

  /** What the programs end up as: None when the loop's reads failed (the exception is caught). */
  function Tracked(query: Query, device: Device, env: Env, e: Event, programItem: DataItem, executionItem: DataItem,
                   samples: seq<Sample>): Option<seq<Program>>
    requires samples != []
  {
    var seed := SeedTime(query.from, samples);
    var times := Times(samples, seed);
    var rule := Rule(env, e, device.dataItems, device.components);
    var readings := Readings(rule, AtOrBefore(samples, seed), samples, times, programItem.id, executionItem.id);
    match Run(readings, times, |times|)
    case Err(_) => None
    case Ok(st) => Some(Close(st, WindowEnd(query.to, env.now)))
  }

  /** GetResponse as a value: every failure inside the try block ends in "handled, nothing written". */
  function Spec(query: Query, device: Device, env: Env): Reply<seq<Program>>
  {
    if !query.isValid then NotHandled
    else
      var e := GetEvent(env.config, EventName);
      if e.None? || !device.agentFound || device.dataItems == [] then Handled(None)
      else
        var ids := EventIds.EventIdsOf(e.value, device.dataItems, device.components, env.isMatch);
        if ids == [] then Handled(None)
        else
          var programItem := FindItem(device.dataItems, ProgramType);
          var executionItem := FindItem(device.dataItems, ExecutionType);
          var samples := device.read(SampleQuery(Some(ReadIds(ids, programItem, executionItem)), query.from, query.to, MinValue, 0));
          if samples == [] || programItem.None? || executionItem.None? then Handled(None)
          else
            var programs := Tracked(query, device, env, e.value, programItem.value, executionItem.value, samples);
            if programs.None? || programs.value == [] then Handled(None) else Handled(Some(programs.value))
  }

  /**
   * A valid request is always handled and never lets an exception out; what
   * it writes is a non-empty list of programs, each with chained events none
   * of which is labelled Stopped or Completed, the last one stopping when
   * its program stops. When no sample lies after the window end, every
   * program also runs forward.
   */
  lemma SpecProperties(query: Query, device: Device, env: Env)
    ensures Spec(query, device, env).NotHandled? <==> !query.isValid
    ensures !Spec(query, device, env).Threw?
    ensures var r := Spec(query, device, env);
            r.Handled? && r.written.Some? ==> r.written.value != [] && forall p :: p in r.written.value ==> Shaped(p)
    ensures var r := Spec(query, device, env);
            r.Handled? && r.written.Some? &&
            (forall s :: s in device.read(SampleQuery(Some(ReadIds(
                                EventIds.EventIdsOf(GetEvent(env.config, EventName).value, device.dataItems, device.components, env.isMatch),
                                FindItem(device.dataItems, ProgramType), FindItem(device.dataItems, ExecutionType))),
                                query.from, query.to, MinValue, 0)) ==>
                       s.timestamp <= WindowEnd(query.to, env.now)) ==>
              forall p :: p in r.written.value ==> Ordered(p)
  {
    var r := Spec(query, device, env);
    if r.Handled? && r.written.Some? {
      var e := GetEvent(env.config, EventName).value;
      var ids := EventIds.EventIdsOf(e, device.dataItems, device.components, env.isMatch);
      var programItem := FindItem(device.dataItems, ProgramType);
      var executionItem := FindItem(device.dataItems, ExecutionType);
      var samples := device.read(SampleQuery(Some(ReadIds(ids, programItem, executionItem)), query.from, query.to, MinValue, 0));
      TrackedProperties(query, device, env, e, programItem.value, executionItem.value, samples);
    }
  }

  /**
   * When tracking a non-empty history succeeds, every program it closes is
   * well shaped, and runs forward when no sample lies after the window end.
   */
  lemma TrackedProperties(query: Query, device: Device, env: Env, e: Event, programItem: DataItem, executionItem: DataItem,
                          samples: seq<Sample>)
    requires samples != []
    ensures var r := Tracked(query, device, env, e, programItem, executionItem, samples);
            r.Some? ==> forall p :: p in r.value ==> Shaped(p)
    ensures var r := Tracked(query, device, env, e, programItem, executionItem, samples);
            r.Some? && (forall s :: s in samples ==> s.timestamp <= WindowEnd(query.to, env.now)) ==>
              forall p :: p in r.value ==> Ordered(p)
  {
    var seed := SeedTime(query.from, samples);
    var times := Times(samples, seed);
    var rule := Rule(env, e, device.dataItems, device.components);
    var readings := Readings(rule, AtOrBefore(samples, seed), samples, times, programItem.id, executionItem.id);
    RunKeeps(readings, times, |times|);
    if Run(readings, times, |times|).Ok? {
      var st := Run(readings, times, |times|).value;
      var end := WindowEnd(query.to, env.now);
      CloseShaped(st, LastTime(times, |times|), end);
      if forall s :: s in samples ==> s.timestamp <= end {
        if times != [] {
          assert times[|times| - 1] in times;
        }
      }
    }
  }

  /** The body of the timestamp loop once the reads are done (the `if (response != null)` block and after). */
  method ObserveStep(st: Tracker, r: Reading, time: Time) returns (next: Tracker)
    ensures next == Observe(st, r, time)
  {
    var programs, program, programEvent, previousValue := st.programs, st.program, st.programEvent, st.previousValue;
    if r.response.Some? {
      var response := r.response.value;
      if program.Some? {
        program := Some(program.value.(stop := time));
        if Some(r.programName) != st.previousProgramName {
          if programEvent.Some? {
            program := Some(program.value.(events := program.value.events + [programEvent.value.(stop := time)]));
            programs := programs + [program.value];
          }
          program := None;
          programEvent := None;
          previousValue := None;
        }
      }
      if program.None? && r.programName != "" && r.programName != Unavailable &&
         response.value != StoppedLabel && response.value != CompletedLabel {
        program := Some(Program(r.programName, time, MinValue, false, []));
      }
      if program.Some? {
        if Some(response.value) != previousValue {
          if programEvent.Some? {
            program := Some(program.value.(events := program.value.events + [programEvent.value.(stop := time)]));
          }
          if response.value != StoppedLabel && response.value != CompletedLabel {
            programEvent := Some(ProgramEvent(response.value, response.description, r.execution, time, MinValue));
          } else {
            program := Some(program.value.(completed := response.value == CompletedLabel));
            programs := programs + [program.value];
            program := None;
            programEvent := None;
          }
        }
      }
      previousValue := Some(response.value);
    }
    next := Tracker(programs, program, programEvent, previousValue, Some(r.programName));
  }

  /** One more instant: the loop stops at a failed read, otherwise the state machine takes a step. */
  lemma RunNext(readings: seq<Result<Reading>>, times: seq<Time>, i: nat, st: Tracker)
    requires |readings| == |times| && i < |times| && Run(readings, times, i) == Ok(st)
    ensures Run(readings, times, i + 1) ==
            if readings[i].Err? then Err(readings[i].fault) else Ok(Observe(st, readings[i].value, times[i]))
  {
  }

  /** A failed read ends the loop: the failure is the outcome of every longer run. */
  lemma {:induction false} RunErrStays(readings: seq<Result<Reading>>, times: seq<Time>, i: nat, n: nat)
    requires |readings| == |times| && i <= n <= |times| && Run(readings, times, i).Err?
    ensures Run(readings, times, n) == Run(readings, times, i)
    decreases n
  {
    if n > i {
      RunErrStays(readings, times, i, n - 1);
    }
  }

  /** The timestamp loop: update the snapshot, read, and step the state machine; a failed read ends it. */
  method TrackLoop(rule: Rule, samples: seq<Sample>, init: seq<Sample>, timestamps: seq<Time>,
                   programId: string, executionId: string) returns (r: Result<Tracker>)
    ensures r == Run(Readings(rule, init, samples, timestamps, programId, executionId), timestamps, |timestamps|)
  {
    ghost var readings := Readings(rule, init, samples, timestamps, programId, executionId);
    var currentSamples := init;
    var tracker := Initial;
    for i := 0 to |timestamps|
      invariant currentSamples == Replayed(init, samples, timestamps[..i])
      invariant Run(readings, timestamps, i) == Ok(tracker)
    {
      var step;
      currentSamples, step := Pass(rule, samples, init, timestamps, programId, executionId, i, currentSamples, tracker);
      if step.Err? {
        return step;
      }
      tracker := step.value;
    }
    return Ok(tracker);
  }

  /** One pass of the timestamp loop at instant i. */
  method Pass(rule: Rule, samples: seq<Sample>, init: seq<Sample>, timestamps: seq<Time>,
              programId: string, executionId: string, i: nat, currentSamples: seq<Sample>, tracker: Tracker)
    returns (nextSamples: seq<Sample>, r: Result<Tracker>)
    requires i < |timestamps| && currentSamples == Replayed(init, samples, timestamps[..i])
    requires Run(Readings(rule, init, samples, timestamps, programId, executionId), timestamps, i) == Ok(tracker)
    ensures nextSamples == Replayed(init, samples, timestamps[..i + 1])
    ensures r == Run(Readings(rule, init, samples, timestamps, programId, executionId), timestamps, i + 1)
    ensures r.Err? ==> r == Run(Readings(rule, init, samples, timestamps, programId, executionId), timestamps, |timestamps|)
  {
    ghost var readings := Readings(rule, init, samples, timestamps, programId, executionId);
    var time := timestamps[i];
    ReplayedStep(init, samples, timestamps, i);
    nextSamples := UpdateSnapshot(currentSamples, samples, time);
    var reading := Read(rule, nextSamples, programId, executionId);
    assert reading == readings[i];
    RunNext(readings, timestamps, i, tracker);
    if reading.Err? {
      RunErrStays(readings, timestamps, i + 1, |timestamps|);
      return nextSamples, Err(reading.fault);
    }
    var next := ObserveStep(tracker, reading.value, time);
    r := Ok(next);
  }

  /** The lines after the loop: close whatever is still open at the window end. */
  method CloseOpen(st: Tracker, toTime: Time) returns (programs: seq<Program>)
    ensures programs == Close(st, toTime)
  {
    programs := st.programs;
    if st.program.Some? {
      var program := st.program.value;
      if st.programEvent.Some? {
        program := program.(events := program.events + [st.programEvent.value.(stop := toTime)]);
      }
      program := program.(stop := toTime);
      programs := programs + [program];
    }
  }

  /**
   * GetResponse: declines an invalid request; otherwise tracks the programs
   * of the window and writes them when there are any. A failed read is
   * caught and nothing is written.
   */
  method GetResponse(query: Query, device: Device, env: Env) returns (r: Reply<seq<Program>>)
    ensures r == Spec(query, device, env)
  {
    if !query.isValid {
      return NotHandled;
    }
    var e := GetEvent(env.config, EventName);
    if e.None? || !device.agentFound || device.dataItems == [] {
      return Handled(None);
    }
    var ids := EventIds.GetEventIds(e.value, device.dataItems, device.components, env.isMatch);
    if ids == [] {
      return Handled(None);
    }
    var programNameItem := FindItem(device.dataItems, ProgramType);
    if programNameItem.Some? {
      ids := ids + [programNameItem.value.id];
    }
    var executionItem := FindItem(device.dataItems, ExecutionType);
    if executionItem.Some? {
      ids := ids + [executionItem.value.id];
    }
    var samples := device.read(SampleQuery(Some(ids), query.from, query.to, MinValue, 0));
    if samples == [] {
      return Handled(None);
    }
    var timestamp := if query.from > MinValue then query.from else Latest(samples);
    var currentSamples := AtOrBefore(samples, timestamp);
    if programNameItem.None? || executionItem.None? {
      return Handled(None);
    }
    var timestamps := Times(samples, timestamp);
    var rule := Rule(env, e.value, device.dataItems, device.components);
    var tracked := TrackLoop(rule, samples, currentSamples, timestamps, programNameItem.value.id, executionItem.value.id);
    if tracked.Err? {
      return Handled(None);
    }
    var toTime := if query.to > MinValue then query.to else env.now;
    var programs := CloseOpen(tracked.value, toTime);
    if programs == [] {
      return Handled(None);
    }
    return Handled(Some(programs));
  }
}

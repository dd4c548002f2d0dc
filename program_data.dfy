/**
 * What both "Programs" trackers share: the Program and ProgramEvent records
 * they emit, the labels that end a program, the data item lookups, and what
 * each replay instant reads from the snapshot (program name, execution
 * mode, the rule's response).
 */
module ProgramData {
  import opened Common
  import opened Replay

  const EventName := "Program Status"
  const StoppedLabel := "Stopped"
  const CompletedLabel := "Completed"
  const Unavailable := "UNAVAILABLE"
  const ProgramType := "PROGRAM"
  const ExecutionType := "EXECUTION"

  /** A labelled stretch of one program run; `stop` is MinValue until it is closed. */
  datatype ProgramEvent = ProgramEvent(name: string, description: string, execution: string, start: Time, stop: Time)

  /** One program run; `stop` is MinValue until it is set. */
  datatype Program = Program(name: string, start: Time, stop: Time, completed: bool, events: seq<ProgramEvent>)

  /** "Stopped" and "Completed" end a program instead of labelling one of its events. */
  predicate Closing(value: string)
  {
    value == StoppedLabel || value == CompletedLabel
  }

  /** A program name that may start a program: not empty and not UNAVAILABLE. */
  predicate ValidName(name: string)
  {
    name != "" && name != Unavailable
  }

  /** dataItems.Find(o => o.Type == itemType): the first item of that type. */
  function FindItem(dataItems: seq<DataItem>, itemType: string): (r: Option<DataItem>)
    ensures r.Some? ==> r.value in dataItems && r.value.itemType == itemType
    ensures r.None? ==> forall d :: d in dataItems ==> d.itemType != itemType
  {
    if dataItems == [] then None
    else if dataItems[0].itemType == itemType then Some(dataItems[0])
    else FindItem(dataItems[1..], itemType)
  }

  /** The item found is the first of its type: no earlier item has that type. */
  lemma {:induction false} FindItemFirst(dataItems: seq<DataItem>, itemType: string)
    ensures var r := FindItem(dataItems, itemType);
            r.Some? ==> exists k :: 0 <= k < |dataItems| && dataItems[k] == r.value &&
                                    forall j :: 0 <= j < k ==> dataItems[j].itemType != itemType
    decreases |dataItems|
  {
    if dataItems != [] && dataItems[0].itemType != itemType {
      var rest := dataItems[1..];
      FindItemFirst(rest, itemType);
      if FindItem(rest, itemType).Some? {
        var k :| 0 <= k < |rest| && rest[k] == FindItem(rest, itemType).value &&
                 forall j :: 0 <= j < k ==> rest[j].itemType != itemType;
        assert dataItems[k + 1] == rest[k];
        forall j | 0 <= j < k + 1 ensures dataItems[j].itemType != itemType {
          if 0 < j {
            assert dataItems[j] == rest[j - 1];
          }
        }
      }
    }
  }

  /** What one instant reads: the program name and execution mode from the snapshot, and the rule's response. */
  datatype Reading = Reading(programName: string, execution: string, response: Option<Evaluation>)

  /**
   * The reads at one instant. `Find(...).CDATA` fails with a null reference
   * when the snapshot holds no sample of the item.
   */
  function ReadingOf(rule: Rule, snapshot: seq<Sample>, programId: string, executionId: string): (r: Result<Reading>)
    ensures r.Ok? <==> Find(snapshot, programId).Some? && Find(snapshot, executionId).Some?
  {
    var programName := Find(snapshot, programId);
    if programName.None? then Err(NullReference)
    else
      var execution := Find(snapshot, executionId);
      if execution.None? then Err(NullReference)
      else Ok(Reading(programName.value.cdata, execution.value.cdata, rule.Evaluate(snapshot)))
  }

  /**
   * The readings of the replay instants, one more per instant: the reading
   * taken on the snapshot replayed up to and including that instant.
   */
  function Readings(rule: Rule, init: seq<Sample>, samples: seq<Sample>, times: seq<Time>,
                    programId: string, executionId: string): (rs: seq<Result<Reading>>)
    ensures |rs| == |times|
    ensures forall k :: 0 <= k < |times| ==>
              rs[k] == ReadingOf(rule, Replayed(init, samples, times[..k + 1]), programId, executionId)
    decreases |times|
  {
    if times == [] then []
    else
      var n := |times| - 1;
      var rs := Readings(rule, init, samples, times[..n], programId, executionId) +
                [ReadingOf(rule, Replayed(init, samples, times), programId, executionId)];
      forall k | 0 <= k < n
        ensures rs[k] == ReadingOf(rule, Replayed(init, samples, times[..k + 1]), programId, executionId)
      {
        assert times[..n][..k + 1] == times[..k + 1];
      }
      assert times[..n + 1] == times;
      rs
  }

  /**
   * The reads of one loop pass, on the snapshot already updated: program
   * name first, then execution, then the rule.
   */
  method Read(rule: Rule, snapshot: seq<Sample>, programId: string, executionId: string) returns (r: Result<Reading>)
    ensures r == ReadingOf(rule, snapshot, programId, executionId)
  {
    var programName := Find(snapshot, programId);
    if programName.None? {
      return Err(NullReference);
    }
    var execution := Find(snapshot, executionId);
    if execution.None? {
      return Err(NullReference);
    }
    var response := rule.Evaluate(snapshot);
    return Ok(Reading(programName.value.cdata, execution.value.cdata, response));
  }
}

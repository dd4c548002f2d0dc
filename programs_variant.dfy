/**
 * The second "Programs" tracker, mod-rest-programs/Programs.cs (class
 * Programs), exported under the same name as the one in Module.cs; which of
 * the two answers depends on module load order. Unlike the one in
 * Module.cs it adds a program to the output list the moment it is created
 * and then keeps changing it through the reference it holds, opens
 * an event on every response while a program is open, leaves a program open
 * on "Stopped" or "Completed" (the latter only sets its flag), and closes
 * nothing at the end of the window.
 *
 * The references `program` and `programEvent` are modelled as positions in
 * the output list: `program` is the index of a program, and `programEvent`
 * names a program and one of its events. The event may belong to an older
 * program than the open one, exactly as the shared references allow.
 */
module ProgramsVariant {
  import opened Common
  import opened Replay
  import opened ProgramData

  /** The event at position `index` of the program at position `owner`. */
  datatype EventRef = EventRef(owner: nat, index: nat)

  /** The loop's variables; `program` and `programEvent` point into `programs`. */
  datatype Tracker = Tracker(programs: seq<Program>, program: Option<nat>, programEvent: Option<EventRef>,
                             previousProgramName: Option<string>)

  const Initial := Tracker([], None, None, None)

  /** Both references point at existing entries. */
  predicate Refs(st: Tracker)
  {
    (st.program.Some? ==> st.program.value < |st.programs|) &&
    (st.programEvent.Some? ==> st.programEvent.value.owner < |st.programs| &&
                               st.programEvent.value.index < |st.programs[st.programEvent.value.owner].events|)
  }

  /** The event a reference names gets its stop; nothing else changes. */
  function SetEventStop(programs: seq<Program>, ref: EventRef, time: Time): (r: seq<Program>)
    requires ref.owner < |programs| && ref.index < |programs[ref.owner].events|
    ensures |r| == |programs|
    ensures forall k :: 0 <= k < |r| ==>
              r[k].name == programs[k].name && r[k].start == programs[k].start && r[k].stop == programs[k].stop &&
              r[k].completed == programs[k].completed && |r[k].events| == |programs[k].events|
    ensures forall k, m :: 0 <= k < |r| && 0 <= m < |r[k].events| ==>
              r[k].events[m] == if k == ref.owner && m == ref.index then programs[k].events[m].(stop := time)
                                else programs[k].events[m]
  {
    var p := programs[ref.owner];
    programs[ref.owner := p.(events := p.events[ref.index := p.events[ref.index].(stop := time)])]
  }

  /** The program at position i gets its stop; nothing else changes. */
  function SetStop(programs: seq<Program>, i: nat, time: Time): (r: seq<Program>)
    requires i < |programs|
    ensures |r| == |programs| && r[i].stop == time
    ensures forall k :: 0 <= k < |r| ==>
              r[k].name == programs[k].name && r[k].start == programs[k].start && r[k].events == programs[k].events &&
              r[k].completed == programs[k].completed && (k != i ==> r[k].stop == programs[k].stop)
  {
    programs[i := programs[i].(stop := time)]
  }

  /** A new program is added to the output list at once and becomes the open one. */
  function StartProgram(st: Tracker, name: string, time: Time): (r: Tracker)
    requires Refs(st)
    ensures Refs(r)
    ensures r.programs == st.programs + [Program(name, time, MinValue, false, [])] && r.program == Some(|st.programs|)
  {
    st.(programs := st.programs + [Program(name, time, MinValue, false, [])], program := Some(|st.programs|))
  }

  /** The first `if`: with no open program, a valid name and a label that does not end a program, one starts. */
  function Create(st: Tracker, name: string, value: string, time: Time): (r: Tracker)
    requires Refs(st)
    ensures Refs(r)
  {
    if ValidName(name) && st.program.None? && !Closing(value) then StartProgram(st, name, time) else st
  }

  /**
   * On a change of program name: the open event and the open program get
   * their stop (the program is dereferenced whenever there is an event,
   * which fails when it is null); then a new program starts, or there is
   * none open.
   */
  function Rename(st: Tracker, name: string, value: string, time: Time): (r: Result<Tracker>)
    requires Refs(st)
    ensures r.Ok? ==> Refs(r.value)
  {
    if Some(name) == st.previousProgramName then Ok(st)
    else if st.programEvent.Some? && st.program.None? then Err(NullReference)
    else
      var programs := if st.programEvent.Some?
                      then SetStop(SetEventStop(st.programs, st.programEvent.value, time), st.program.value, time)
                      else st.programs;
      var st1 := st.(programs := programs);
      var st2 := if ValidName(name) && !Closing(value) then StartProgram(st1, name, time) else st1.(program := None);
      Ok(st2.(previousProgramName := Some(name)))
  }

  /**
   * With a program open: the open event and the program get their stop; a
   * label that does not end a program opens a new event on the open program,
   * "Completed" sets its flag, and the program stays open in every case.
   */
  function Extend(st: Tracker, response: Evaluation, execution: string, time: Time): (r: Tracker)
    requires Refs(st)
    ensures Refs(r)
  {
    if st.program.None? then st
    else
      var i := st.program.value;
      var programs := if st.programEvent.Some?
                      then SetStop(SetEventStop(st.programs, st.programEvent.value, time), i, time)
                      else st.programs;
      if !Closing(response.value) then
        var p := programs[i];
        st.(programs := programs[i := p.(events := p.events + [ProgramEvent(response.value, response.description, execution, time, MinValue)])],
            programEvent := Some(EventRef(i, |p.events|)))
      else if response.value == CompletedLabel then st.(programs := programs[i := programs[i].(completed := true)])
      else st.(programs := programs)
  }

  /** One pass of the timestamp loop, after the reads; a step without a response changes nothing. */
  function Observe(st: Tracker, r: Reading, time: Time): (next: Result<Tracker>)
    requires Refs(st)
    ensures next.Ok? ==> Refs(next.value)
  {
    if r.response.None? then Ok(st)
    else
      var value := r.response.value.value;
      match Rename(Create(st, r.programName, value, time), r.programName, value, time)
      case Err(f) => Err(f)
      case Ok(st2) => Ok(Extend(st2, r.response.value, r.execution, time))
  }

  /** The loop over the first n instants; the first failure ends it. */
  function Run(readings: seq<Result<Reading>>, times: seq<Time>, n: nat): (r: Result<Tracker>)
    requires |readings| == |times| && n <= |times|
    ensures r.Ok? ==> Refs(r.value)
  {
    if n == 0 then Ok(Initial)
    else
      match Run(readings, times, n - 1)
      case Err(f) => Err(f)
      case Ok(st) => if readings[n - 1].Err? then Err(readings[n - 1].fault) else Observe(st, readings[n - 1].value, times[n - 1])
  }

  // ----- Single-step behaviour -----

  /**
   * `after` keeps the programs of `before` (name and start) and adds only
   * programs named `name`, a valid name, starting at `time`.
   */
  ghost predicate Appended(before: seq<Program>, after: seq<Program>, name: string, time: Time)
  {
    |before| <= |after| &&
    (forall k :: 0 <= k < |before| ==> after[k].name == before[k].name && after[k].start == before[k].start) &&
    (|before| < |after| ==> ValidName(name)) &&
    (forall k :: |before| <= k < |after| ==> after[k].name == name && after[k].start == time)
  }

  lemma AppendedTrans(a: seq<Program>, b: seq<Program>, c: seq<Program>, name: string, time: Time)
    requires Appended(a, b, name, time) && Appended(b, c, name, time)
    ensures Appended(a, c, name, time)
  {
    forall k | |a| <= k < |c|
      ensures c[k].name == name && c[k].start == time
    {
      if k < |b| {
        assert c[k].name == b[k].name && c[k].start == b[k].start;
      }
    }
  }

  lemma CreateAppends(st: Tracker, name: string, value: string, time: Time)
    requires Refs(st)
    ensures var next := Create(st, name, value, time);
            Appended(st.programs, next.programs, name, time) && |next.programs| <= |st.programs| + 1
  {
  }

  lemma RenameAppends(st: Tracker, name: string, value: string, time: Time)
    requires Refs(st)
    ensures var next := Rename(st, name, value, time);
            next.Ok? ==> Appended(st.programs, next.value.programs, name, time) && |next.value.programs| <= |st.programs| + 1
  {
  }

  lemma ExtendKeeps(st: Tracker, response: Evaluation, execution: string, time: Time)
    requires Refs(st)
    ensures var next := Extend(st, response, execution, time);
            |next.programs| == |st.programs| &&
            forall k :: 0 <= k < |st.programs| ==> next.programs[k].name == st.programs[k].name && next.programs[k].start == st.programs[k].start
  {
  }

  /**
   * Programs are only ever added, at the end, at most two in one pass, each
   * named after the current program name (a valid one) and starting at the
   * instant; programs already in the list keep their name and start.
   */
  lemma ObserveAppends(st: Tracker, r: Reading, time: Time)
    requires Refs(st)
    ensures var next := Observe(st, r, time);
            next.Ok? ==>
              Appended(st.programs, next.value.programs, r.programName, time) &&
              |next.value.programs| <= |st.programs| + 2
  {
    if r.response.Some? {
      var value := r.response.value.value;
      var s1 := Create(st, r.programName, value, time);
      CreateAppends(st, r.programName, value, time);
      var s2 := Rename(s1, r.programName, value, time);
      RenameAppends(s1, r.programName, value, time);
      if s2.Ok? {
        ExtendKeeps(s2.value, r.response.value, r.execution, time);
        AppendedTrans(st.programs, s1.programs, s2.value.programs, r.programName, time);
        var s3 := Extend(s2.value, r.response.value, r.execution, time);
        assert Appended(s2.value.programs, s3.programs, r.programName, time);
        AppendedTrans(st.programs, s2.value.programs, s3.programs, r.programName, time);
      }
    }
  }

  /**
   * While a program is open after a response, a label that does not end a
   * program always opens a new event on it — even when the label has not
   * changed — and that event is the open one.
   */
  lemma ObserveOpensEvent(st: Tracker, r: Reading, time: Time)
    requires Refs(st)
    ensures var next := Observe(st, r, time);
            next.Ok? && r.response.Some? && next.value.program.Some? && !Closing(r.response.value.value) ==>
              var i := next.value.program.value;
              var evs := next.value.programs[i].events;
              evs != [] &&
              next.value.programEvent == Some(EventRef(i, |evs| - 1)) &&
              evs[|evs| - 1] == ProgramEvent(r.response.value.value, r.response.value.description, r.execution, time, MinValue)
  {
    if r.response.Some? {
      var value := r.response.value.value;
      var mid := Rename(Create(st, r.programName, value, time), r.programName, value, time);
      if mid.Ok? && mid.value.program.Some? && !Closing(value) {
        ExtendOpensEvent(mid.value, r.response.value, r.execution, time);
      }
    }
  }

  /** With a program open, a label that does not end it becomes the program's last event, and the open one. */
  lemma ExtendOpensEvent(st: Tracker, response: Evaluation, execution: string, time: Time)
    requires Refs(st) && st.program.Some? && !Closing(response.value)
    ensures var next := Extend(st, response, execution, time);
            var i := st.program.value;
            var evs := next.programs[i].events;
            next.program == st.program && evs != [] &&
            next.programEvent == Some(EventRef(i, |evs| - 1)) &&
            evs[|evs| - 1] == ProgramEvent(response.value, response.description, execution, time, MinValue)
  {
  }

  /**
   * "Stopped" and "Completed" do not close the open program: with the same
   * program name it stays open, and "Completed" sets its flag.
   */
  lemma ObserveKeepsOpen(st: Tracker, r: Reading, time: Time)
    requires Refs(st)
    requires st.program.Some? && st.previousProgramName == Some(r.programName)
    requires r.response.Some? && Closing(r.response.value.value)
    ensures var next := Observe(st, r, time);
            next.Ok? && next.value.program == st.program &&
            |next.value.programs| == |st.programs| &&
            (st.programEvent.Some? ==> next.value.programs[st.program.value].stop == time) &&
            (r.response.value.value == CompletedLabel ==> next.value.programs[st.program.value].completed)
  {
  }

  /**
   * A change of program name replaces the open program: by a new one, last
   * in the list, when the name is valid and the label does not end a
   * program, otherwise by none.
   */
  lemma ObserveRename(st: Tracker, r: Reading, time: Time)
    requires Refs(st)
    requires r.response.Some? && st.previousProgramName != Some(r.programName)
    ensures var next := Observe(st, r, time);
            next.Ok? ==>
              next.value.previousProgramName == Some(r.programName) &&
              (ValidName(r.programName) && !Closing(r.response.value.value) <==> next.value.program.Some?) &&
              (next.value.program.Some? ==>
                 next.value.program.value == |next.value.programs| - 1 &&
                 next.value.programs[next.value.program.value].name == r.programName &&
                 next.value.programs[next.value.program.value].start == time)
  {
    var value := r.response.value.value;
    var s1 := Create(st, r.programName, value, time);
    var s2 := Rename(s1, r.programName, value, time);
    if s2.Ok? {
      var s3 := Extend(s2.value, r.response.value, r.execution, time);
      assert s3.program == s2.value.program && |s3.programs| == |s2.value.programs|;
    }
  }

  /**
   * The pass fails exactly when a response comes with a new program name
   * while an event is still referenced but no program is open and none can
   * start: the close at the name change dereferences the null program.
   */
  lemma ObserveFault(st: Tracker, r: Reading, time: Time)
    requires Refs(st)
    ensures Observe(st, r, time).Err? <==>
            r.response.Some? && st.previousProgramName != Some(r.programName) &&
            st.programEvent.Some? && st.program.None? &&
            !(ValidName(r.programName) && !Closing(r.response.value.value))
  {
  }

  /**
   * The first response with a valid program name and a label that does not
   * end a program adds two programs of that name, both starting at that
   * instant; the second one is the open one and the first never gets an event.
   */
  lemma FirstStepAddsTwo(r: Reading, time: Time)
    requires r.response.Some? && ValidName(r.programName) && !Closing(r.response.value.value)
    ensures var next := Observe(Initial, r, time);
            next.Ok? && |next.value.programs| == 2 &&
            next.value.programs[0] == Program(r.programName, time, MinValue, false, []) &&
            next.value.programs[1].name == r.programName && next.value.programs[1].start == time &&
            next.value.program == Some(1)
  {
  }

  /**
   * The null program is reachable: a program runs with an event, its name
   * becomes UNAVAILABLE (no program is open, the event is still referenced),
   * then the name changes again to one that cannot start a program.
   */
  lemma StaleEventFault()
    ensures var running := Some(Evaluation("Running", ""));
            var readings := [Ok(Reading("O1000", "AUTOMATIC", running)),
                             Ok(Reading(Unavailable, "AUTOMATIC", running)),
                             Ok(Reading("", "AUTOMATIC", running))];
            Run(readings, [10, 20, 30], 3) == Err(NullReference)
  {
    var running := Some(Evaluation("Running", ""));
    var r1 := Reading("O1000", "AUTOMATIC", running);
    var r2 := Reading(Unavailable, "AUTOMATIC", running);
    var r3 := Reading("", "AUTOMATIC", running);
    var readings := [Ok(r1), Ok(r2), Ok(r3)];
    assert ValidName("O1000") && !Closing("Running") && !ValidName(Unavailable) && !ValidName("");
    var s1 := Observe(Initial, r1, 10);
    assert s1.Ok? && s1.value.program == Some(1) && s1.value.programEvent == Some(EventRef(1, 0)) &&
           s1.value.previousProgramName == Some("O1000");
    assert Run(readings, [10, 20, 30], 1) == s1;
    var s2 := Observe(s1.value, r2, 20);
    assert Some(Unavailable) != Some("O1000");
    assert s2.Ok? && s2.value.program.None? && s2.value.programEvent.Some? && s2.value.previousProgramName == Some(Unavailable);
    assert Run(readings, [10, 20, 30], 2) == s2;
    assert Some("") != Some(Unavailable);
    assert Observe(s2.value, r3, 30) == Err(NullReference);
  }

  /** A failure ends the loop: it is the outcome of every longer run. */
  lemma {:induction false} RunErrStays(readings: seq<Result<Reading>>, times: seq<Time>, i: nat, n: nat)
    requires |readings| == |times| && i <= n <= |times| && Run(readings, times, i).Err?
    ensures Run(readings, times, n) == Run(readings, times, i)
    decreases n
  {
    if n > i {
      RunErrStays(readings, times, i, n - 1);
    }
  }

  // ----- GetResponse -----

  /** The initial instant: From when set, else At when set, else the latest sample instant. */
  function SeedTime(from: Time, at: Time, samples: seq<Sample>): (t: Time)
    requires samples != []
    ensures from > MinValue ==> t == from
    ensures from == MinValue && at > MinValue ==> t == at
    ensures from == MinValue && at == MinValue ==> HasSampleAt(samples, t) && forall s :: s in samples ==> s.timestamp <= t
  {
    if from > MinValue then from else if at > MinValue then at else Latest(samples)
  }

  /**
   * One pass of the polling loop as a value: nothing is written unless the
   * device, its data items, its samples and the rule are there; a failure
   * inside the loop is caught and nothing is written; otherwise the program
   * list is written as it stands, even when it is empty.
   */
  function Spec(query: Query, device: Device, env: Env): Reply<seq<Program>>
  {
    if !query.isValid then NotHandled
    else if !device.agentFound then Handled(None)
    else
      var samples := device.read(SampleQuery(None, query.from, query.to, query.at, query.count));
      if device.dataItems == [] || samples == [] then Handled(None)
      else
        var e := GetEvent(env.config, EventName);
        if e.None? then Handled(None)
        else
          var programItem := FindItem(device.dataItems, ProgramType);
          var executionItem := FindItem(device.dataItems, ExecutionType);
          if programItem.None? || executionItem.None? then Handled(Some([]))
          else
            var seed := SeedTime(query.from, query.at, samples);
            var times := Times(samples, seed);
            var rule := Rule(env, e.value, device.dataItems, device.components);
            var readings := Readings(rule, AtOrBefore(samples, seed), samples, times, programItem.value.id, executionItem.value.id);
            match Run(readings, times, |times|)
            case Err(_) => Handled(None)
            case Ok(st) => Handled(Some(st.programs))
  }

  /**
   * A valid request is always handled and never lets an exception out; once
   * the device, its data items, its samples and the rule are there, the list
   * is written — possibly empty, and always when the PROGRAM or EXECUTION
   * item is missing — and nothing is written exactly when the loop failed;
   * a successful run's list is written as it stands.
   */
  lemma SpecProperties(query: Query, device: Device, env: Env)
    ensures Spec(query, device, env).NotHandled? <==> !query.isValid
    ensures !Spec(query, device, env).Threw?
    ensures query.isValid && device.agentFound && device.dataItems != [] &&
            device.read(SampleQuery(None, query.from, query.to, query.at, query.count)) != [] &&
            GetEvent(env.config, EventName).Some? &&
            (FindItem(device.dataItems, ProgramType).None? || FindItem(device.dataItems, ExecutionType).None?) ==>
              Spec(query, device, env) == Handled(Some([]))
    ensures var samples := device.read(SampleQuery(None, query.from, query.to, query.at, query.count));
            var e := GetEvent(env.config, EventName);
            var programItem := FindItem(device.dataItems, ProgramType);
            var executionItem := FindItem(device.dataItems, ExecutionType);
            query.isValid && device.agentFound && device.dataItems != [] && samples != [] &&
            e.Some? && programItem.Some? && executionItem.Some? ==>
              var seed := SeedTime(query.from, query.at, samples);
              var times := Times(samples, seed);
              var rule := Rule(env, e.value, device.dataItems, device.components);
              var readings := Readings(rule, AtOrBefore(samples, seed), samples, times, programItem.value.id, executionItem.value.id);
              var run := Run(readings, times, |times|);
              (Spec(query, device, env).written.None? <==> run.Err?) &&
              (run.Ok? ==> Spec(query, device, env) == Handled(Some(run.value.programs)))
  {
  }

  /** The `if (response != null)` block of one pass. */
  method ObserveStep(st: Tracker, r: Reading, time: Time) returns (next: Result<Tracker>)
    requires Refs(st)
    ensures next == Observe(st, r, time)
  {
    if r.response.None? {
      return Ok(st);
    }
    var response := r.response.value;
    var created := CreateStep(st, r.programName, response.value, time);
    var renamed := RenameStep(created, r.programName, response.value, time);
    if renamed.Err? {
      return renamed;
    }
    var extended := ExtendStep(renamed.value, response, r.execution, time);
    return Ok(extended);
  }

  /** The first `if` of the loop body: a program is created when none is open. */
  method CreateStep(st: Tracker, programName: string, value: string, time: Time) returns (next: Tracker)
    requires Refs(st)
    ensures next == Create(st, programName, value, time)
  {
    next := st;
    if programName != "" && programName != Unavailable && st.program.None? &&
       value != StoppedLabel && value != CompletedLabel {
      var programs := st.programs + [Program(programName, time, MinValue, false, [])];
      next := st.(programs := programs, program := Some(|programs| - 1));
    }
  }

  /** The second `if` of the loop body: the program name changed. */
  method RenameStep(st: Tracker, programName: string, value: string, time: Time) returns (next: Result<Tracker>)
    requires Refs(st)
    ensures next == Rename(st, programName, value, time)
  {
    if Some(programName) == st.previousProgramName {
      return Ok(st);
    }
    var programs, program := st.programs, st.program;
    if st.programEvent.Some? {
      programs := SetEventStop(programs, st.programEvent.value, time);
      if program.None? {
        return Err(NullReference);
      }
      programs := SetStop(programs, program.value, time);
    }
    if programName != "" && programName != Unavailable && value != StoppedLabel && value != CompletedLabel {
      programs := programs + [Program(programName, time, MinValue, false, [])];
      program := Some(|programs| - 1);
    } else {
      program := None;
    }
    return Ok(st.(programs := programs, program := program, previousProgramName := Some(programName)));
  }

  /** The third `if` of the loop body: the open program takes the response. */
  method ExtendStep(st: Tracker, response: Evaluation, execution: string, time: Time) returns (next: Tracker)
    requires Refs(st)
    ensures next == Extend(st, response, execution, time)
  {
    var programs, programEvent := st.programs, st.programEvent;
    if st.program.Some? {
      var i := st.program.value;
      if programEvent.Some? {
        programs := SetEventStop(programs, programEvent.value, time);
        programs := SetStop(programs, i, time);
      }
      if response.value != StoppedLabel && response.value != CompletedLabel {
        var events := programs[i].events;
        programs := programs[i := programs[i].(events := events + [ProgramEvent(response.value, response.description, execution, time, MinValue)])];
        programEvent := Some(EventRef(i, |events|));
      } else if response.value == CompletedLabel {
        programs := programs[i := programs[i].(completed := true)];
      }
    }
    return st.(programs := programs, programEvent := programEvent);
  }

  /** One more instant: a failed read or step ends the loop, otherwise the state machine takes a step. */
  lemma RunNext(readings: seq<Result<Reading>>, times: seq<Time>, i: nat, st: Tracker)
    requires |readings| == |times| && i < |times| && Run(readings, times, i) == Ok(st)
    ensures Run(readings, times, i + 1) ==
            if readings[i].Err? then Err(readings[i].fault) else Observe(st, readings[i].value, times[i])
  {
  }

  /** One pass of the timestamp loop at instant i, with both data items present. */
  method Pass(rule: Rule, samples: seq<Sample>, init: seq<Sample>, timestamps: seq<Time>,
              programId: string, executionId: string, i: nat, currentSamples: seq<Sample>, tracker: Tracker)
    returns (nextSamples: seq<Sample>, r: Result<Tracker>)
    requires i < |timestamps| && currentSamples == Replayed(init, samples, timestamps[..i])
    requires Run(Readings(rule, init, samples, timestamps, programId, executionId), timestamps, i) == Ok(tracker)
    ensures nextSamples == Replayed(init, samples, timestamps[..i + 1])
    ensures r == Run(Readings(rule, init, samples, timestamps, programId, executionId), timestamps, i + 1)
    ensures r.Err? ==> r == Run(Readings(rule, init, samples, timestamps, programId, executionId), timestamps, |timestamps|)
  {
    ghost var readings := Readings(rule, init, samples, timestamps, programId, executionId);
    var time := timestamps[i];
    ReplayedStep(init, samples, timestamps, i);
    nextSamples := UpdateSnapshot(currentSamples, samples, time);
    var reading := Read(rule, nextSamples, programId, executionId);
    assert reading == readings[i];
    RunNext(readings, timestamps, i, tracker);
    if reading.Err? {
      RunErrStays(readings, timestamps, i + 1, |timestamps|);
      return nextSamples, Err(reading.fault);
    }
    r := ObserveStep(tracker, reading.value, time);
    if r.Err? {
      RunErrStays(readings, timestamps, i + 1, |timestamps|);
    }
  }

  /**
   * The timestamp loop: the snapshot is updated at every instant; the reads
   * and the state machine run only when both data items exist.
   */
  method TrackLoop(rule: Rule, samples: seq<Sample>, init: seq<Sample>, timestamps: seq<Time>,
                   programItem: Option<DataItem>, executionItem: Option<DataItem>) returns (r: Result<Tracker>)
    requires programItem.Some? && executionItem.Some?
    ensures r == Run(Readings(rule, init, samples, timestamps, programItem.value.id, executionItem.value.id),
                     timestamps, |timestamps|)
  {
    ghost var readings := Readings(rule, init, samples, timestamps, programItem.value.id, executionItem.value.id);
    var currentSamples := init;
    var tracker := Initial;
    for i := 0 to |timestamps|
      invariant currentSamples == Replayed(init, samples, timestamps[..i])
      invariant Run(readings, timestamps, i) == Ok(tracker)
    {
      var step;
      currentSamples, step := Pass(rule, samples, init, timestamps, programItem.value.id, executionItem.value.id,
                                   i, currentSamples, tracker);
      if step.Err? {
        return step;
      }
      tracker := step.value;
    }
    return Ok(tracker);
  }

  /**
   * GetResponse, one pass of its polling loop: declines an invalid request;
   * otherwise writes the program list when the device, its data items, its
   * samples and the rule are there and the loop did not fail.
   */
  method GetResponse(query: Query, device: Device, env: Env) returns (r: Reply<seq<Program>>)
    ensures r == Spec(query, device, env)
  {
    if !query.isValid {
      return NotHandled;
    }
    if !device.agentFound {
      return Handled(None);
    }
    var samples := device.read(SampleQuery(None, query.from, query.to, query.at, query.count));
    if device.dataItems == [] || samples == [] {
      return Handled(None);
    }
    var e := GetEvent(env.config, EventName);
    if e.None? {
      return Handled(None);
    }
    var timestamp := if query.from > MinValue then query.from else if query.at > MinValue then query.at else Latest(samples);
    var programNameItem := FindItem(device.dataItems, ProgramType);
    var executionItem := FindItem(device.dataItems, ExecutionType);
    var currentSamples := AtOrBefore(samples, timestamp);
    var timestamps := Times(samples, timestamp);
    if programNameItem.None? || executionItem.None? {
      // Without both items the loop only updates the snapshot: no program is ever made.
      return Handled(Some([]));
    }
    var rule := Rule(env, e.value, device.dataItems, device.components);
    var tracked := TrackLoop(rule, samples, currentSamples, timestamps, programNameItem, executionItem);
    if tracked.Err? {
      return Handled(None);
    }
    return Handled(Some(tracked.value.programs));
  }
}

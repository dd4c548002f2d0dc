/**
 * Availability: the time a device spent "Active" according to the "Status"
 * rule, and the share of the evaluated window that represents.
 *
 * The replay walks the distinct sample instants in ascending order; at each
 * one the rule is evaluated on the current snapshot, and when the previous
 * non-null label was "Active" the step from the previous instant to this
 * one is recorded as an Active interval. Adjacent Active steps are not
 * merged. If the last label is Active, a final interval runs to the end of
 * the window.
 */
module Availability {
  import opened Common
  import opened Replay
  import EventIds

  const EventName: string := "Status"
  const ActiveValue: string := "Active"

  /** The length of an interval, in seconds. */
  function Duration(iv: Interval): int
  {
    iv.stop as int - iv.start as int
  }

  /** The summed length of a list of intervals. */
  function TotalDuration(ivs: seq<Interval>): int
    decreases |ivs|
  {
    if ivs == [] then 0 else TotalDuration(ivs[..|ivs| - 1]) + Duration(ivs[|ivs| - 1])
  }

  /**
   * The intervals lie in [lo, hi], each one runs forward, and each one ends
   * no later than the next one starts: they are in order and do not overlap.
   */
  predicate Chained(ivs: seq<Interval>, lo: int, hi: int)
  {
    (forall k :: 0 <= k < |ivs| ==> lo <= ivs[k].start <= ivs[k].stop <= hi) &&
    (forall k, l :: 0 <= k < l < |ivs| ==> ivs[k].stop <= ivs[l].start)
  }

  /** Ordered, non-overlapping intervals inside [lo, hi] add up to at most hi - lo. */
  lemma {:induction false} ChainedTotal(ivs: seq<Interval>, lo: int, hi: int)
    requires Chained(ivs, lo, hi)
    ensures 0 <= TotalDuration(ivs)
    ensures lo <= hi ==> TotalDuration(ivs) <= hi - lo
    decreases |ivs|
  {
    if ivs != [] {
      var n := |ivs| - 1;
      var last := ivs[n];
      assert Chained(ivs[..n], lo, last.start);
      ChainedTotal(ivs[..n], lo, last.start);
    }
  }

  /** The variables of the replay loop: events, operatingTime, addPrevious, previousEvent. */
  datatype Tally = Tally(events: seq<Interval>, operatingTime: int, addPrevious: bool, previousEvent: string)

  /**
   * The loop state after the first n replay instants, given the instants and
   * the label the rule gave at each (None where it returned null). A null
   * label leaves the state as it was. (previousEvent is "" before the first
   * label; it is read only while addPrevious holds.)
   */
  function Fold(times: seq<Time>, labels: seq<Option<string>>, n: nat): Tally
    requires |labels| == |times| && n <= |times|
  {
    if n == 0 then Tally([], 0, false, "")
    else
      var i := n - 1;
      Step(Fold(times, labels, i), labels[i], i > 0, if i > 0 then times[i - 1] else MinValue, times[i])
  }

  /**
   * One replay instant `time`, whose predecessor is `previousTime` (when
   * `hasPrevious`): with a non-null response label, first record [previousTime, time]
   * if the previous label was Active, then remember this label.
   */
  function Step(st: Tally, response: Option<string>, hasPrevious: bool, previousTime: Time, time: Time): Tally
  {
    if response.None? then st
    else
      var recorded :=
        if st.addPrevious && hasPrevious
        then st.(events := st.events + [Interval(st.previousEvent, previousTime, time)],
                 operatingTime := st.operatingTime + (time as int - previousTime as int))
        else st;
      recorded.(addPrevious := response.value == ActiveValue, previousEvent := response.value)
  }

  /** The last non-null label among the first n, if any. */
  function LastLabel(labels: seq<Option<string>>, n: nat): Option<string>
    requires n <= |labels|
  {
    if n == 0 then None
    else if labels[n - 1].Some? then labels[n - 1]
    else LastLabel(labels, n - 1)
  }

  /** The flag says the last non-null label was "Active", and then that label is remembered. */
  lemma {:induction false} FoldFlag(times: seq<Time>, labels: seq<Option<string>>, n: nat)
    requires |labels| == |times| && n <= |times|
    ensures Fold(times, labels, n).addPrevious <==> LastLabel(labels, n) == Some(ActiveValue)
    ensures Fold(times, labels, n).addPrevious ==> Fold(times, labels, n).previousEvent == ActiveValue
  {
    if n > 0 {
      FoldFlag(times, labels, n - 1);
    }
  }

  /** Every recorded interval is named "Active". */
  lemma {:induction false} FoldNames(times: seq<Time>, labels: seq<Option<string>>, n: nat)
    requires |labels| == |times| && n <= |times|
    ensures forall iv :: iv in Fold(times, labels, n).events ==> iv.name == ActiveValue
  {
    if n > 0 {
      FoldFlag(times, labels, n - 1);
      FoldNames(times, labels, n - 1);
    }
  }

  /** operatingTime is the summed length of the recorded intervals. */
  lemma {:induction false} FoldSum(times: seq<Time>, labels: seq<Option<string>>, n: nat)
    requires |labels| == |times| && n <= |times|
    ensures Fold(times, labels, n).operatingTime == TotalDuration(Fold(times, labels, n).events)
  {
    if n > 0 {
      FoldSum(times, labels, n - 1);
      var st := Fold(times, labels, n - 1);
      var evs := Fold(times, labels, n).events;
      if evs != st.events {
        assert evs[..|evs| - 1] == st.events;
      }
    }
  }

  /**
   * The recorded intervals are steps [t_(i-1), t_i] of the replay, in order
   * and without overlap, inside [t_0, t_(n-1)].
   */
  lemma {:induction false} FoldChained(times: seq<Time>, labels: seq<Option<string>>, n: nat)
    requires |labels| == |times| && 0 < n <= |times| && StrictlyIncreasing(times)
    ensures Chained(Fold(times, labels, n).events, times[0], times[n - 1])
  {
    if n > 1 {
      FoldChained(times, labels, n - 1);
      var st := Fold(times, labels, n - 1);
      var evs := Fold(times, labels, n).events;
      var i := n - 1;
      assert times[i - 1] < times[i];
      assert times[0] <= times[i - 1];
      if evs != st.events {
        assert evs == st.events + [Interval(st.previousEvent, times[i - 1], times[i])];
      }
    }
  }

  /** A step where the rule returns null records nothing and keeps the flag and the previous label. */
  lemma NullStepKeepsState(times: seq<Time>, labels: seq<Option<string>>, i: nat)
    requires |labels| == |times| && i < |times| && labels[i].None?
    ensures Fold(times, labels, i + 1) == Fold(times, labels, i)
    ensures LastLabel(labels, i + 1) == LastLabel(labels, i)
  {
  }

  /** After the last instant: when the last label was Active, add [last, end] and its length. */
  function CloseTally(st: Tally, last: Time, end: Time): Tally
  {
    if st.addPrevious
    then st.(events := st.events + [Interval(st.previousEvent, last, end)],
             operatingTime := st.operatingTime + (end as int - last as int))
    else st
  }

  /** The events after the final step: the recorded ones, plus [t_last, end] when the last label was Active. */
  function Closed(times: seq<Time>, labels: seq<Option<string>>, end: Time): Tally
    requires |labels| == |times| && times != []
  {
    CloseTally(Fold(times, labels, |times|), times[|times| - 1], end)
  }

  /**
   * Every event is an Active interval; the events are in order, do not
   * overlap and lie inside [t_0, end]; operatingTime is their summed length,
   * and so at most the planned time end - t_0 (given end is not before the
   * last instant).
   */
  lemma ClosedProperties(times: seq<Time>, labels: seq<Option<string>>, end: Time)
    requires |labels| == |times| && times != [] && StrictlyIncreasing(times)
    requires times[|times| - 1] <= end
    ensures forall iv :: iv in Closed(times, labels, end).events ==> iv.name == ActiveValue
    ensures Chained(Closed(times, labels, end).events, times[0], end)
    ensures Closed(times, labels, end).operatingTime == TotalDuration(Closed(times, labels, end).events)
    ensures 0 <= Closed(times, labels, end).operatingTime <= end - times[0]
  {
    var n := |times|;
    FoldFlag(times, labels, n);
    FoldNames(times, labels, n);
    FoldSum(times, labels, n);
    FoldChained(times, labels, n);
    var st := Fold(times, labels, n);
    var c := Closed(times, labels, end);
    if st.addPrevious {
      assert c.events[..|c.events| - 1] == st.events;
    }
    ChainedTotal(c.events, times[0], end);
  }

  /** An Availability result; `events` is the published list, set only when details are requested. */
  datatype AvailabilityResult = AvailabilityResult(operatingTime: int, plannedProductionTime: int,
                                                   internalEvents: Option<seq<Interval>>,
                                                   events: Option<seq<Interval>>)

  /** The constructor: an empty event list is kept as null. */
  function Make(operatingTime: int, plannedProductionTime: int, events: seq<Interval>): (r: AvailabilityResult)
    ensures r.operatingTime == operatingTime && r.plannedProductionTime == plannedProductionTime
    ensures r.internalEvents.None? <==> events == []
    ensures r.internalEvents.Some? ==> r.internalEvents.value == events
    ensures r.events.None?
  {
    AvailabilityResult(operatingTime, plannedProductionTime,
                       if events == [] then None else Some(events), None)
  }

  /** The availability ratio: operating over planned time, or 0 without planned time. */
  function Value(a: AvailabilityResult): (r: real)
    ensures a.plannedProductionTime > 0 ==> r * (a.plannedProductionTime as real) == a.operatingTime as real
    ensures a.plannedProductionTime <= 0 ==> r == 0.0
    ensures 0 <= a.operatingTime <= a.plannedProductionTime ==> 0.0 <= r <= 1.0
  {
    if a.plannedProductionTime > 0
    then (a.operatingTime as real) / (a.plannedProductionTime as real)
    else 0.0
  }

  /** The result built from the loop state: planned time runs from the first instant to `end`. */
  function Finish(st: Tally, first: Time, last: Time, end: Time, details: bool): AvailabilityResult
  {
    var c := CloseTally(st, last, end);
    var a := Make(c.operatingTime, end as int - first as int, c.events);
    if details then a.(events := a.internalEvents) else a
  }

  /** The result for a non-empty replay ending at `end`. */
  function Outcome(times: seq<Time>, labels: seq<Option<string>>, end: Time, details: bool): AvailabilityResult
    requires |labels| == |times| && times != []
  {
    Finish(Fold(times, labels, |times|), times[0], times[|times| - 1], end, details)
  }

  /** Availability.Get as a value. */
  function Spec(query: Query, dataItems: seq<DataItem>, components: seq<Component>,
                read: SampleQuery -> seq<Sample>, env: Env): Option<AvailabilityResult>
  {
    var e := GetEvent(env.config, EventName);
    if e.None? || dataItems == [] then None
    else
      var ids := EventIds.EventIdsOf(e.value, dataItems, components, env.isMatch);
      if ids == [] then None
      else
        var samples := read(SampleQuery(Some(ids), query.from, query.to, MinValue, 0));
        if samples == [] then None
        else
          var seed := SeedTime(query.from, samples);
          var times := Times(samples, seed);
          if times == [] then None
          else
            var rule := Rule(env, e.value, dataItems, components);
            var labels := Labels(Evaluations(rule, AtOrBefore(samples, seed), samples, times));
            Some(Outcome(times, labels, WindowEnd(query.to, env.now), query.details))
  }

  /**
   * Whatever Availability.Get returns, its events are Active intervals in
   * order, operatingTime is their summed length, the published list is set
   * exactly when details are requested, and when the window does not end
   * before the last sample instant the ratio lies in [0, 1].
   */
  lemma OutcomeProperties(times: seq<Time>, labels: seq<Option<string>>, end: Time, details: bool)
    requires |labels| == |times| && times != [] && StrictlyIncreasing(times)
    ensures var a := Outcome(times, labels, end, details);
            a.internalEvents.Some? ==>
              (forall iv :: iv in a.internalEvents.value ==> iv.name == ActiveValue) &&
              a.operatingTime == TotalDuration(a.internalEvents.value)
    ensures var a := Outcome(times, labels, end, details);
            a.internalEvents.None? ==> a.operatingTime == 0
    ensures var a := Outcome(times, labels, end, details);
            a.events.Some? <==> details && a.internalEvents.Some?
    ensures times[|times| - 1] <= end ==> 0.0 <= Value(Outcome(times, labels, end, details)) <= 1.0
  {
    var n := |times|;
    FoldFlag(times, labels, n);
    FoldNames(times, labels, n);
    FoldSum(times, labels, n);
    var st := Fold(times, labels, n);
    var c := Closed(times, labels, end);
    if st.addPrevious {
      assert c.events[..|c.events| - 1] == st.events;
    }
    if times[n - 1] <= end {
      ClosedProperties(times, labels, end);
    }
  }

  /**
   * The `for` loop of Availability.Get: fold each instant's samples into the
   * snapshot, evaluate the rule, and record the step just ended when the
   * previous label was Active. The start of a recorded step is clamped to
   * `from`, which never moves it since no instant precedes `from`.
   */
  method ReplayLoop(rule: Rule, from: Time, samples: seq<Sample>, init: seq<Sample>, timestamps: seq<Time>)
    returns (tally: Tally)
    requires forall k :: 0 <= k < |timestamps| ==> from <= timestamps[k]
    ensures tally == Fold(timestamps, Labels(Evaluations(rule, init, samples, timestamps)), |timestamps|)
  {
    ghost var labels := Labels(Evaluations(rule, init, samples, timestamps));
    var instanceSamples := init;
    tally := Tally([], 0, false, "");
    for i := 0 to |timestamps|
      invariant instanceSamples == Replayed(init, samples, timestamps[..i])
      invariant tally == Fold(timestamps, labels, i)
    {
      var time := timestamps[i];
      ReplayedStep(init, samples, timestamps, i);
      instanceSamples := UpdateSnapshot(instanceSamples, samples, time);
      var response := rule.Evaluate(instanceSamples);
      assert labels[i] == if response.Some? then Some(response.value.value) else None;
      var value := if response.Some? then Some(response.value.value) else None;
      tally := Record(tally, value, from, timestamps, i);
    }
  }

  /**
   * The body of the `if (response != null)` block at instant i: record the
   * step just ended when the previous label was Active (its start clamped
   * to `from`), then remember the new label.
   */
  method Record(tally: Tally, response: Option<string>, from: Time, timestamps: seq<Time>, i: nat)
    returns (next: Tally)
    requires i < |timestamps| && forall k :: 0 <= k < |timestamps| ==> from <= timestamps[k]
    ensures next == Step(tally, response, i > 0, if i > 0 then timestamps[i - 1] else MinValue, timestamps[i])
  {
    var time := timestamps[i];
    var operatingTime, addPrevious, previousEvent, events :=
      tally.operatingTime, tally.addPrevious, tally.previousEvent, tally.events;
    if response.Some? {
      if addPrevious && i > 0 {
        var previousTime := if timestamps[i - 1] < from then from else timestamps[i - 1];
        var seconds := time as int - previousTime as int;
        events := events + [Interval(previousEvent, previousTime, time)];
        operatingTime := operatingTime + seconds;
      }
      addPrevious := response.value == ActiveValue;
      previousEvent := response.value;
    }
    next := Tally(events, operatingTime, addPrevious, previousEvent);
  }

  /**
   * Availability.Get: replays the "Status" rule over the samples of the
   * window and returns the operating and planned times, or None when there
   * is no rule, no data item, no id, no sample or no instant at or after the
   * seed.
   */
  method Get(query: Query, dataItems: seq<DataItem>, components: seq<Component>,
             read: SampleQuery -> seq<Sample>, env: Env) returns (r: Option<AvailabilityResult>)
    ensures r == Spec(query, dataItems, components, read, env)
  {
    var e := GetEvent(env.config, EventName);
    if e.None? || dataItems == [] {
      return None;
    }
    var ids := EventIds.GetEventIds(e.value, dataItems, components, env.isMatch);
    if ids == [] {
      return None;
    }
    var samples := read(SampleQuery(Some(ids), query.from, query.to, MinValue, 0));
    if samples == [] {
      return None;
    }
    var timestamp := if query.from > MinValue then query.from else Latest(samples);
    assert timestamp == SeedTime(query.from, samples);
    var instanceSamples := AtOrBefore(samples, timestamp);

    var timestamps := Times(samples, timestamp);
    if timestamps == [] {
      return None;
    }
    var rule := Rule(env, e.value, dataItems, components);
    TimesFromOnward(samples, query.from, timestamp);
    var toTimestamp := if query.to > MinValue then query.to else env.now;
    var availability := Measure(rule, query.from, samples, instanceSamples, timestamps, toTimestamp, query.details);
    return Some(availability);
  }

  /** The replay instants never precede `from`: they start at the seed, which is `from` when it is set. */
  lemma TimesFromOnward(samples: seq<Sample>, from: Time, seed: Time)
    requires samples != [] && seed == SeedTime(from, samples)
    ensures forall k :: 0 <= k < |Times(samples, seed)| ==> from <= Times(samples, seed)[k]
  {
    var times := Times(samples, seed);
    forall k | 0 <= k < |times| ensures from <= times[k] {
      assert times[k] in times;
    }
  }

  /** The replay loop and the lines after it, once the replay instants are known. */
  method Measure(rule: Rule, from: Time, samples: seq<Sample>, init: seq<Sample>, timestamps: seq<Time>,
                 toTimestamp: Time, details: bool) returns (availability: AvailabilityResult)
    requires timestamps != [] && forall k :: 0 <= k < |timestamps| ==> from <= timestamps[k]
    ensures availability == Outcome(timestamps, Labels(Evaluations(rule, init, samples, timestamps)), toTimestamp, details)
  {
    var tally := ReplayLoop(rule, from, samples, init, timestamps);
    availability := Conclude(tally, timestamps[0], timestamps[|timestamps| - 1], toTimestamp, details);
  }

  /** The lines after the loop: close a trailing Active interval at the window end and build the result. */
  method Conclude(tally: Tally, first: Time, last: Time, toTimestamp: Time, details: bool)
    returns (availability: AvailabilityResult)
    ensures availability == Finish(tally, first, last, toTimestamp, details)
  {
    var operatingTime, addPrevious, previousEvent, events :=
      tally.operatingTime, tally.addPrevious, tally.previousEvent, tally.events;
    if addPrevious {
      operatingTime := operatingTime + (toTimestamp as int - last as int);
      events := events + [Interval(previousEvent, last, toTimestamp)];
    }
    var totalTime := toTimestamp as int - first as int;
    availability := Make(operatingTime, totalTime, events);
    if details {
      availability := availability.(events := availability.internalEvents);
    }
  }
}

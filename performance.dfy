/**
 * Performance: how fast the device ran while it was Active, judged by its
 * feed-rate override signal.
 *
 * The override samples, in timestamp order, are cut into intervals of
 * constant override; the last interval always runs to the end of the
 * window. Each override interval is then intersected with the Availability
 * intervals (by the source's own overlap test), and its operating time is
 * scaled by override/100 to give the ideal operating time.
 */
module Performance {
  import opened Common
  import opened Replay
  import Availability

  /** The data items that carry a feed-rate override signal. */
  predicate IsOverrideItem(d: DataItem)
  {
    d.itemType == "PATH_FEEDRATE_OVERRIDE" || (d.itemType == "PATH_FEEDRATE" && d.units == "PERCENT")
  }

  /** The ids of the override items, in definition order. */
  function OverrideIds(dataItems: seq<DataItem>): (r: seq<string>)
    ensures |r| <= |dataItems|
    ensures forall id :: id in r <==> exists d :: d in dataItems && IsOverrideItem(d) && d.id == id
  {
    if dataItems == [] then []
    else
      var rest := OverrideIds(dataItems[1..]);
      assert forall d :: d in dataItems <==> d == dataItems[0] || d in dataItems[1..];
      (if IsOverrideItem(dataItems[0]) then [dataItems[0].id] else []) + rest
  }

  // ---------------------------------------------------------------------
  // OrderBy(o => o.Timestamp): a stable sort.

  predicate SortedByTime(s: seq<Sample>)
  {
    forall i, j :: 0 <= i < j < |s| ==> s[i].timestamp <= s[j].timestamp
  }

  lemma {:induction false} AtAppend(a: seq<Sample>, b: seq<Sample>, t: Time)
    ensures At(a + b, t) == At(a, t) + At(b, t)
    decreases |a|
  {
    if a == [] {
      assert a + b == b;
    } else {
      var head := if a[0].timestamp == t then [a[0]] else [];
      calc {
        At(a + b, t);
        { assert (a + b)[0] == a[0]; assert (a + b)[1..] == a[1..] + b; }
        head + At(a[1..] + b, t);
        { AtAppend(a[1..], b, t); }
        head + (At(a[1..], t) + At(b, t));
        (head + At(a[1..], t)) + At(b, t);
        At(a, t) + At(b, t);
      }
    }
  }

  /** Inserts `x` after every element stamped no later than it. */
  function InsertByTime(s: seq<Sample>, x: Sample): (r: seq<Sample>)
    ensures |r| == |s| + 1
    decreases |s|
  {
    if s == [] || s[|s| - 1].timestamp <= x.timestamp then s + [x]
    else InsertByTime(s[..|s| - 1], x) + [s[|s| - 1]]
  }

  lemma {:induction false} InsertByTimeMultiset(s: seq<Sample>, x: Sample)
    ensures multiset(InsertByTime(s, x)) == multiset(s) + multiset{x}
    decreases |s|
  {
    if !(s == [] || s[|s| - 1].timestamp <= x.timestamp) {
      var n := |s| - 1;
      assert s == s[..n] + [s[n]];
      InsertByTimeMultiset(s[..n], x);
    }
  }

  lemma {:induction false} InsertByTimeSorted(s: seq<Sample>, x: Sample)
    requires SortedByTime(s)
    ensures SortedByTime(InsertByTime(s, x))
    decreases |s|
  {
    if !(s == [] || s[|s| - 1].timestamp <= x.timestamp) {
      var n := |s| - 1;
      var y := s[n];
      var front := InsertByTime(s[..n], x);
      InsertByTimeSorted(s[..n], x);
      InsertByTimeMultiset(s[..n], x);
      forall k | 0 <= k < |front| ensures front[k].timestamp <= y.timestamp {
        var z := front[k];
        assert z in multiset(front);
        if z != x {
          assert z in multiset(s[..n]);
          assert z in s[..n];
        }
      }
    }
  }

  lemma AtSingleton(y: Sample, t: Time)
    ensures At([y], t) == if y.timestamp == t then [y] else []
  {
    assert [y][1..] == [];
  }

  /** Insertion keeps the samples of every instant in their order and puts `x` after them. */
  lemma {:induction false} InsertByTimeAt(s: seq<Sample>, x: Sample, t: Time)
    ensures At(InsertByTime(s, x), t) == At(s, t) + (if x.timestamp == t then [x] else [])
    decreases |s|
  {
    AtSingleton(x, t);
    if s == [] || s[|s| - 1].timestamp <= x.timestamp {
      AtAppend(s, [x], t);
    } else {
      var n := |s| - 1;
      var front := InsertByTime(s[..n], x);
      assert InsertByTime(s, x) == front + [s[n]];
      assert s[..n] + [s[n]] == s;
      InsertByTimeAt(s[..n], x, t);
      AtAppend(front, [s[n]], t);
      AtAppend(s[..n], [s[n]], t);
      AtSwap(At(s[..n], t), x, s[n], t);
    }
  }

  /** Two samples stamped differently can trade places in a batch. */
  lemma AtSwap(prefix: seq<Sample>, x: Sample, y: Sample, t: Time)
    requires x.timestamp != y.timestamp
    ensures prefix + At([x], t) + At([y], t) == prefix + At([y], t) + At([x], t)
  {
    AtSingleton(x, t);
    AtSingleton(y, t);
  }

  /** The samples in timestamp order (a stable sort). */
  function SortByTime(xs: seq<Sample>): (r: seq<Sample>)
    ensures SortedByTime(r)
    ensures |r| == |xs| && multiset(r) == multiset(xs)
    decreases |xs|
  {
    if xs == [] then []
    else
      var n := |xs| - 1;
      assert xs == xs[..n] + [xs[n]];
      InsertByTimeSorted(SortByTime(xs[..n]), xs[n]);
      InsertByTimeMultiset(SortByTime(xs[..n]), xs[n]);
      InsertByTime(SortByTime(xs[..n]), xs[n])
  }

  /** Stability: the samples of each instant come out in the order they went in. */
  lemma {:induction false} SortByTimeAt(xs: seq<Sample>, t: Time)
    ensures At(SortByTime(xs), t) == At(xs, t)
    decreases |xs|
  {
    if xs != [] {
      var n := |xs| - 1;
      assert xs == xs[..n] + [xs[n]];
      SortByTimeAt(xs[..n], t);
      InsertByTimeAt(SortByTime(xs[..n]), xs[n], t);
      AtAppend(xs[..n], [xs[n]], t);
    }
  }

  // ---------------------------------------------------------------------
  // Override segmentation.

  /** A stretch of constant feed-rate override (OverrideEvent). */
  datatype OverrideEvent = OverrideEvent(feedrateOverride: real, start: Time, stop: Time)

  /** The variables of the segmentation loop. */
  datatype Segmenter = Segmenter(events: seq<OverrideEvent>, previousOverride: real, previousTime: Time)

  /**
   * The segmentation state after the first n samples. A sample whose text
   * does not parse changes nothing. A parsed value that differs from the
   * previous one ends the previous stretch at this sample (emitted only
   * after the first sample and when the previous value is not negative) and
   * starts a new one here, clamped to `from`.
   */
  function Segment(samples: seq<Sample>, from: Time, parse: string -> Option<real>, n: nat): Segmenter
    requires n <= |samples|
  {
    if n == 0 then Segmenter([], 0.0, MinValue)
    else
      var st := Segment(samples, from, parse, n - 1);
      var i := n - 1;
      var v := parse(samples[i].cdata);
      if v.None? then st
      else if st.previousOverride != v.value then
        var events :=
          if i > 0 && st.previousOverride >= 0.0
          then st.events + [OverrideEvent(st.previousOverride, st.previousTime, samples[i].timestamp)]
          else st.events;
        Segmenter(events, v.value, if samples[i].timestamp < from then from else samples[i].timestamp)
      else st.(previousOverride := v.value)
  }

  /** The override intervals: the emitted ones and the final one, which always ends at `end`. */
  function OverrideEvents(samples: seq<Sample>, from: Time, parse: string -> Option<real>, end: Time): seq<OverrideEvent>
  {
    var st := Segment(samples, from, parse, |samples|);
    st.events + [OverrideEvent(st.previousOverride, st.previousTime, end)]
  }

  /** A sample whose text does not parse leaves the segmentation as it was. */
  lemma UnparsedSampleSkipped(samples: seq<Sample>, from: Time, parse: string -> Option<real>, i: nat)
    requires i < |samples| && parse(samples[i].cdata).None?
    ensures Segment(samples, from, parse, i + 1) == Segment(samples, from, parse, i)
  {
  }

  /**
   * On time-ordered samples, every emitted stretch ends no later than the
   * next one (and the current one) starts, every emitted stretch has a
   * non-negative override, and, when no sample precedes `from`, every
   * emitted stretch runs forward.
   */
  lemma {:induction false} SegmentShape(samples: seq<Sample>, from: Time, parse: string -> Option<real>, n: nat)
    requires n <= |samples| && SortedByTime(samples)
    ensures var st := Segment(samples, from, parse, n);
            forall k :: 0 <= k < |st.events| ==>
              st.events[k].feedrateOverride >= 0.0 &&
              st.events[k].stop <= st.previousTime &&
              (forall l :: k < l < |st.events| ==> st.events[k].stop <= st.events[l].start)
    ensures var st := Segment(samples, from, parse, n);
            (forall k :: 0 <= k < |samples| ==> from <= samples[k].timestamp) ==>
              forall k :: 0 <= k < |st.events| ==> st.events[k].start <= st.events[k].stop
    ensures 0 < n ==> Segment(samples, from, parse, n).previousTime <= from ||
                      Segment(samples, from, parse, n).previousTime <= samples[n - 1].timestamp
  {
    if n > 0 {
      SegmentShape(samples, from, parse, n - 1);
      var st := Segment(samples, from, parse, n - 1);
      var i := n - 1;
      if n > 1 {
        assert samples[n - 2].timestamp <= samples[i].timestamp;
      }
    }
  }

  /**
   * The override intervals of ordered samples: there is at least one, the
   * last ends at `end` and carries the last parsed value; the intervals
   * follow one another without overlap, and all but the last have a
   * non-negative override.
   */
  lemma OverrideEventsShape(samples: seq<Sample>, from: Time, parse: string -> Option<real>, end: Time)
    requires SortedByTime(samples)
    ensures var os := OverrideEvents(samples, from, parse, end);
            |os| >= 1 && os[|os| - 1].stop == end &&
            os[|os| - 1].feedrateOverride == Segment(samples, from, parse, |samples|).previousOverride &&
            (forall k :: 0 <= k < |os| - 1 ==> os[k].feedrateOverride >= 0.0) &&
            (forall k, l :: 0 <= k < l < |os| ==> os[k].stop <= os[l].start)
  {
    SegmentShape(samples, from, parse, |samples|);
  }

  // ---------------------------------------------------------------------
  // Intersection with the Availability intervals.

  /**
   * The overlap test as written: the availability interval starts inside
   * [o.start, o.stop) or stops inside (o.start, o.stop].
   */
  predicate Overlaps(a: Interval, o: OverrideEvent)
  {
    (a.start >= o.start && a.start < o.stop) || (a.stop <= o.stop && a.stop > o.start)
  }

  /** The seconds an availability interval adds to an override interval, as written. */
  function Contribution(a: Interval, o: OverrideEvent): int
  {
    if Overlaps(a, o)
    then
      var startTime := if a.start < o.start then o.start else a.start;
      var stopTime := if a.stop > o.stop then o.stop else a.stop;
      stopTime as int - startTime as int
    else 0
  }

  /** The operating time inside one override interval: the sum over all availability intervals. */
  function OperatingWithin(o: OverrideEvent, avail: seq<Interval>): int
    decreases |avail|
  {
    if avail == [] then 0
    else OperatingWithin(o, avail[..|avail| - 1]) + Contribution(avail[|avail| - 1], o)
  }

  /** The part of an availability interval inside the override interval. */
  function Clip(a: Interval, o: OverrideEvent): Interval
  {
    Interval(a.name, if a.start < o.start then o.start else a.start, if a.stop > o.stop then o.stop else a.stop)
  }

  /** The clipped availability intervals that pass the overlap test, in order. */
  function Clipped(o: OverrideEvent, avail: seq<Interval>): seq<Interval>
    decreases |avail|
  {
    if avail == [] then []
    else
      var n := |avail| - 1;
      Clipped(o, avail[..n]) + (if Overlaps(avail[n], o) then [Clip(avail[n], o)] else [])
  }

  lemma {:induction false} ClippedTotal(o: OverrideEvent, avail: seq<Interval>)
    ensures Availability.TotalDuration(Clipped(o, avail)) == OperatingWithin(o, avail)
    decreases |avail|
  {
    if avail != [] {
      var n := |avail| - 1;
      ClippedTotal(o, avail[..n]);
      var c := Clipped(o, avail);
      if Overlaps(avail[n], o) {
        assert c[..|c| - 1] == Clipped(o, avail[..n]);
      } else {
        assert Contribution(avail[n], o) == 0;
        assert c == Clipped(o, avail[..n]);
      }
    }
  }

  lemma {:induction false} ClippedChained(o: OverrideEvent, avail: seq<Interval>, lo: int, hi: int)
    requires Availability.Chained(avail, lo, hi)
    ensures Availability.Chained(Clipped(o, avail), o.start, o.stop)
    ensures forall c :: c in Clipped(o, avail) ==> c.stop <= hi
    decreases |avail|
  {
    if avail != [] {
      var n := |avail| - 1;
      var a := avail[n];
      assert Availability.Chained(avail[..n], lo, a.start);
      ClippedChained(o, avail[..n], lo, a.start);
      var front := Clipped(o, avail[..n]);
      if Overlaps(a, o) {
        var c := Clipped(o, avail);
        assert c == front + [Clip(a, o)];
        forall k | 0 <= k < |front| ensures front[k].stop <= Clip(a, o).start {
          assert front[k] in front;
        }
      } else {
        assert Clipped(o, avail) == front + [];
      }
    }
  }

  /**
   * Over ordered, non-overlapping availability intervals, an override
   * interval collects at most its own length of operating time, and never
   * a negative amount.
   */
  lemma OperatingWithinBounds(o: OverrideEvent, avail: seq<Interval>, lo: int, hi: int)
    requires Availability.Chained(avail, lo, hi)
    ensures 0 <= OperatingWithin(o, avail)
    ensures o.start <= o.stop ==> OperatingWithin(o, avail) <= o.stop as int - o.start as int
  {
    ClippedChained(o, avail, lo, hi);
    ClippedTotal(o, avail);
    Availability.ChainedTotal(Clipped(o, avail), o.start, o.stop);
  }

  /** An availability interval that strictly encloses the override interval contributes nothing. */
  lemma EnclosingContributesNothing(a: Interval, o: OverrideEvent)
    requires a.start < o.start && o.stop < a.stop
    ensures Contribution(a, o) == 0
  {
  }

  // ---------------------------------------------------------------------
  // Events and totals.

  datatype PerformanceEvent = PerformanceEvent(feedrateOverride: real, operatingTime: int,
                                               idealOperatingTime: real, start: Time, stop: Time)

  /** The performance event of one override interval: ideal time is operating time scaled by override/100. */
  function EventOf(o: OverrideEvent, avail: seq<Interval>): (e: PerformanceEvent)
    ensures e.feedrateOverride == o.feedrateOverride && e.start == o.start && e.stop == o.stop
    ensures e.idealOperatingTime * 100.0 == (e.operatingTime as real) * o.feedrateOverride
  {
    var w := OperatingWithin(o, avail);
    PerformanceEvent(o.feedrateOverride, w, (w as real) * (o.feedrateOverride / 100.0), o.start, o.stop)
  }

  /** One performance event per override interval, in the same order. */
  function EventsOf(overrides: seq<OverrideEvent>, avail: seq<Interval>): (r: seq<PerformanceEvent>)
    ensures |r| == |overrides|
    ensures forall k :: 0 <= k < |r| ==> r[k] == EventOf(overrides[k], avail)
  {
    seq(|overrides|, k requires 0 <= k < |overrides| => EventOf(overrides[k], avail))
  }

  function TotalOperating(events: seq<PerformanceEvent>): int
    decreases |events|
  {
    if events == [] then 0 else TotalOperating(events[..|events| - 1]) + events[|events| - 1].operatingTime
  }

  function TotalIdeal(events: seq<PerformanceEvent>): real
    decreases |events|
  {
    if events == [] then 0.0 else TotalIdeal(events[..|events| - 1]) + events[|events| - 1].idealOperatingTime
  }

  /** A non-negative time scaled by a percentage in [0, 100] lies between 0 and the time itself. */
  lemma ScaledBounds(operating: real, percent: real, ideal: real)
    requires 0.0 <= operating && 0.0 <= percent <= 100.0
    requires ideal * 100.0 == operating * percent
    ensures 0.0 <= ideal <= operating
  {
    ProductNonNegative(operating, percent);
    ProductNonNegative(operating, 100.0 - percent);
  }

  /** The product of two non-negative reals is not negative. */
  lemma ProductNonNegative(x: real, y: real)
    requires 0.0 <= x && 0.0 <= y
    ensures 0.0 <= x * y
  {
  }

  /**
   * When every event's operating time is not negative and its override lies
   * in [0, 100], the ideal total lies between 0 and the operating total, and
   * a zero operating total forces a zero ideal total.
   */
  lemma {:induction false} TotalsBounded(events: seq<PerformanceEvent>)
    requires forall e :: e in events ==>
               0 <= e.operatingTime && 0.0 <= e.feedrateOverride <= 100.0 &&
               e.idealOperatingTime * 100.0 == (e.operatingTime as real) * e.feedrateOverride
    ensures 0 <= TotalOperating(events)
    ensures 0.0 <= TotalIdeal(events) <= TotalOperating(events) as real
    decreases |events|
  {
    if events != [] {
      var n := |events| - 1;
      var e := events[n];
      assert e in events;
      assert forall x :: x in events[..n] ==> x in events;
      TotalsBounded(events[..n]);
      ScaledBounds(e.operatingTime as real, e.feedrateOverride, e.idealOperatingTime);
    }
  }

  /** A Performance result; `events` is the published list, set only when details are requested. */
  datatype PerformanceResult = PerformanceResult(operatingTime: int, idealOperatingTime: real,
                                                 internalEvents: Option<seq<PerformanceEvent>>,
                                                 events: Option<seq<PerformanceEvent>>)

  /** The constructor: an empty event list is kept as null. */
  function Make(operatingTime: int, idealOperatingTime: real, events: seq<PerformanceEvent>): (r: PerformanceResult)
    ensures r.operatingTime == operatingTime && r.idealOperatingTime == idealOperatingTime
    ensures r.internalEvents.None? <==> events == []
    ensures r.internalEvents.Some? ==> r.internalEvents.value == events
    ensures r.events.None?
  {
    PerformanceResult(operatingTime, idealOperatingTime, if events == [] then None else Some(events), None)
  }

  /**
   * The performance ratio: ideal over operating time when there is ideal
   * time, 0 otherwise. None stands for the infinite quotient a zero
   * operating time would give.
   */
  function Value(p: PerformanceResult): (r: Option<real>)
    ensures r.None? <==> p.idealOperatingTime > 0.0 && p.operatingTime == 0
    ensures r.Some? && p.idealOperatingTime > 0.0 ==> r.value * (p.operatingTime as real) == p.idealOperatingTime
    ensures r.Some? && p.idealOperatingTime <= 0.0 ==> r.value == 0.0
    ensures r.Some? && 0.0 <= p.idealOperatingTime <= p.operatingTime as real ==> 0.0 <= r.value <= 1.0
  {
    if p.idealOperatingTime > 0.0 then
      if p.operatingTime == 0 then None
      else Some(p.idealOperatingTime / (p.operatingTime as real))
    else Some(0.0)
  }

  /** The result for a list of override intervals and availability intervals. */
  function Outcome(overrides: seq<OverrideEvent>, avail: seq<Interval>, details: bool): PerformanceResult
  {
    var events := EventsOf(overrides, avail);
    var p := Make(TotalOperating(events), TotalIdeal(events), events);
    if details then p.(events := Some(events)) else p
  }

  /** Performance.Get as a value; Err when the availability list it is given is null. */
  function Spec(query: Query, dataItems: seq<DataItem>, availabilityEvents: Option<seq<Interval>>,
                read: SampleQuery -> seq<Sample>, env: Env): Result<Option<PerformanceResult>>
  {
    var ids := OverrideIds(dataItems);
    if ids == [] then Ok(None)
    else
      var samples := read(SampleQuery(Some(ids), query.from, query.to, MinValue, 0));
      if samples == [] then Ok(None)
      else if availabilityEvents.None? then Err(NullReference)
      else
        var overrides := OverrideEvents(SortByTime(samples), query.from, env.parse, WindowEnd(query.to, env.now));
        Ok(Some(Outcome(overrides, availabilityEvents.value, query.details)))
  }

  /**
   * Over ordered, non-overlapping availability intervals, and with override
   * values in [0, 100]: one event per override interval, each collecting no
   * more than its own length of operating time; the totals are the sums of
   * the events; 0 <= ideal <= operating, and the ratio is finite and lies
   * in [0, 1].
   */
  lemma OutcomeProperties(overrides: seq<OverrideEvent>, avail: seq<Interval>, lo: int, hi: int, details: bool)
    requires Availability.Chained(avail, lo, hi)
    requires overrides != []
    requires forall o :: o in overrides ==> 0.0 <= o.feedrateOverride <= 100.0
    ensures var p := Outcome(overrides, avail, details);
            p.internalEvents.Some? && |p.internalEvents.value| == |overrides| &&
            p.operatingTime == TotalOperating(p.internalEvents.value) &&
            p.idealOperatingTime == TotalIdeal(p.internalEvents.value)
    ensures forall o :: o in overrides && o.start <= o.stop ==>
              0 <= EventOf(o, avail).operatingTime <= o.stop as int - o.start as int
    ensures var p := Outcome(overrides, avail, details);
            0.0 <= p.idealOperatingTime <= p.operatingTime as real &&
            Value(p).Some? && 0.0 <= Value(p).value <= 1.0
  {
    var events := EventsOf(overrides, avail);
    forall o | o in overrides && o.start <= o.stop
      ensures 0 <= EventOf(o, avail).operatingTime <= o.stop as int - o.start as int
    {
      OperatingWithinBounds(o, avail, lo, hi);
    }
    forall e | e in events
      ensures 0 <= e.operatingTime && 0.0 <= e.feedrateOverride <= 100.0
    {
      var k :| 0 <= k < |events| && events[k] == e;
      assert overrides[k] in overrides;
      OperatingWithinBounds(overrides[k], avail, lo, hi);
    }
    TotalsBounded(events);
  }

  // ---------------------------------------------------------------------
  // The imperative code.

  /** The segmentation `for` loop over the ordered samples. */
  method SegmentLoop(samples: seq<Sample>, from: Time, parse: string -> Option<real>) returns (st: Segmenter)
    ensures st == Segment(samples, from, parse, |samples|)
  {
    var overrideEvents: seq<OverrideEvent> := [];
    var previousOverride := 0.0;
    var previousTime: Time := MinValue;
    for i := 0 to |samples|
      invariant Segmenter(overrideEvents, previousOverride, previousTime) == Segment(samples, from, parse, i)
    {
      var sample := samples[i];
      var feedrateOverride := parse(sample.cdata);
      if feedrateOverride.Some? {
        if previousOverride != feedrateOverride.value {
          if i > 0 && previousOverride >= 0.0 {
            overrideEvents := overrideEvents + [OverrideEvent(previousOverride, previousTime, samples[i].timestamp)];
          }
          previousTime := if sample.timestamp < from then from else sample.timestamp;
        }
        previousOverride := feedrateOverride.value;
      }
    }
    st := Segmenter(overrideEvents, previousOverride, previousTime);
  }

  /** The inner `foreach`: the operating time an override interval collects. */
  method Within(overrideEvent: OverrideEvent, availabilityEvents: seq<Interval>) returns (eventOperatingTime: int)
    ensures eventOperatingTime == OperatingWithin(overrideEvent, availabilityEvents)
  {
    eventOperatingTime := 0;
    for k := 0 to |availabilityEvents|
      invariant eventOperatingTime == OperatingWithin(overrideEvent, availabilityEvents[..k])
    {
      var availEvent := availabilityEvents[k];
      assert availabilityEvents[..k + 1][..k] == availabilityEvents[..k];
      if (availEvent.start >= overrideEvent.start && availEvent.start < overrideEvent.stop) ||
         (availEvent.stop <= overrideEvent.stop && availEvent.stop > overrideEvent.start) {
        var startTime := if availEvent.start < overrideEvent.start then overrideEvent.start else availEvent.start;
        var stopTime := if availEvent.stop > overrideEvent.stop then overrideEvent.stop else availEvent.stop;
        var seconds := stopTime as int - startTime as int;
        eventOperatingTime := eventOperatingTime + seconds;
      }
    }
    assert availabilityEvents[..|availabilityEvents|] == availabilityEvents;
  }

  /** The body of the outer `foreach`: the performance event of one override interval. */
  method IntersectOne(overrideEvent: OverrideEvent, availabilityEvents: seq<Interval>) returns (e: PerformanceEvent)
    ensures e == EventOf(overrideEvent, availabilityEvents)
  {
    var eventOperatingTime := Within(overrideEvent, availabilityEvents);
    var eventIdealOperatingTime := (eventOperatingTime as real) * (overrideEvent.feedrateOverride / 100.0);
    e := PerformanceEvent(overrideEvent.feedrateOverride, eventOperatingTime, eventIdealOperatingTime,
                          overrideEvent.start, overrideEvent.stop);
  }

  /** One more override interval adds its event at the end. */
  lemma EventsOfSnoc(overrides: seq<OverrideEvent>, i: nat, avail: seq<Interval>)
    requires i < |overrides|
    ensures EventsOf(overrides[..i + 1], avail) == EventsOf(overrides[..i], avail) + [EventOf(overrides[i], avail)]
  {
    var longer := overrides[..i + 1];
    assert forall k :: 0 <= k < i ==> longer[k] == overrides[..i][k];
  }

  /** One more event adds its times to both totals. */
  lemma TotalsSnoc(events: seq<PerformanceEvent>, e: PerformanceEvent)
    ensures TotalOperating(events + [e]) == TotalOperating(events) + e.operatingTime
    ensures TotalIdeal(events + [e]) == TotalIdeal(events) + e.idealOperatingTime
  {
    assert (events + [e])[..|events|] == events;
  }

  /** The outer `foreach`: one event per override interval, accumulating both totals. */
  method Intersect(overrideEvents: seq<OverrideEvent>, availabilityEvents: seq<Interval>)
    returns (performanceEvents: seq<PerformanceEvent>, operatingTime: int, idealOperatingTime: real)
    ensures performanceEvents == EventsOf(overrideEvents, availabilityEvents)
    ensures operatingTime == TotalOperating(performanceEvents)
    ensures idealOperatingTime == TotalIdeal(performanceEvents)
  {
    performanceEvents := [];
    operatingTime := 0;
    idealOperatingTime := 0.0;
    for i := 0 to |overrideEvents|
      invariant performanceEvents == EventsOf(overrideEvents[..i], availabilityEvents)
      invariant operatingTime == TotalOperating(performanceEvents)
      invariant idealOperatingTime == TotalIdeal(performanceEvents)
    {
      var e := IntersectOne(overrideEvents[i], availabilityEvents);
      operatingTime := operatingTime + e.operatingTime;
      idealOperatingTime := idealOperatingTime + e.idealOperatingTime;
      TotalsSnoc(performanceEvents, e);
      EventsOfSnoc(overrideEvents, i, availabilityEvents);
      performanceEvents := performanceEvents + [e];
    }
    assert overrideEvents[..|overrideEvents|] == overrideEvents;
  }

  /**
   * Performance.Get: the override intervals of the window intersected with
   * the Availability intervals. Ok(None) when there is no override item or
   * no sample; Err when the availability list it is handed is null.
   */
  method Get(query: Query, dataItems: seq<DataItem>, availabilityEvents: Option<seq<Interval>>,
             read: SampleQuery -> seq<Sample>, env: Env) returns (r: Result<Option<PerformanceResult>>)
    ensures r == Spec(query, dataItems, availabilityEvents, read, env)
  {
    var overrideIds := OverrideIds(dataItems);
    if overrideIds == [] {
      return Ok(None);
    }
    var samples := read(SampleQuery(Some(overrideIds), query.from, query.to, MinValue, 0));
    if samples == [] {
      return Ok(None);
    }
    samples := SortByTime(samples);
    var st := SegmentLoop(samples, query.from, env.parse);
    var toTimestamp := if query.to > MinValue then query.to else env.now;
    var overrideEvents := st.events + [OverrideEvent(st.previousOverride, st.previousTime, toTimestamp)];
    if availabilityEvents.None? {
      return Err(NullReference);
    }
    var performanceEvents, operatingTime, idealOperatingTime := Intersect(overrideEvents, availabilityEvents.value);
    var performance := Make(operatingTime, idealOperatingTime, performanceEvents);
    if query.details {
      performance := performance.(events := Some(performanceEvents));
    }
    return Ok(Some(performance));
  }
}

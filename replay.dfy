/**
 * The timeline replay shared by the Availability calculator and both
 * program trackers: choosing the seed instant, seeding the snapshot with the
 * samples at or before it, listing the distinct replay instants in ascending
 * order, and folding each instant's samples into the snapshot (replace the
 * entry with the same data item id, or append).
 */
module Replay {
  import opened Common

  predicate StrictlyIncreasing(ts: seq<Time>)
  {
    forall i, j :: 0 <= i < j < |ts| ==> ts[i] < ts[j]
  }

  /** There is a sample stamped `t`. */
  predicate HasSampleAt(samples: seq<Sample>, t: Time)
  {
    exists s :: s in samples && s.timestamp == t
  }

  /** The latest sample timestamp (OrderByDescending(...).First()). */
  function Latest(samples: seq<Sample>): (t: Time)
    requires samples != []
    ensures HasSampleAt(samples, t)
    ensures forall s :: s in samples ==> s.timestamp <= t
  {
    if |samples| == 1 then samples[0].timestamp
    else
      var rest := Latest(samples[1..]);
      assert forall s :: s in samples ==> s == samples[0] || s in samples[1..];
      if samples[0].timestamp >= rest then samples[0].timestamp else rest
  }

  /** The seed instant: `from` when it is set, otherwise the latest sample timestamp. */
  function SeedTime(from: Time, samples: seq<Sample>): (t: Time)
    requires samples != []
    ensures from > MinValue ==> t == from
    ensures from == MinValue ==> HasSampleAt(samples, t) && forall s :: s in samples ==> s.timestamp <= t
  {
    if from > MinValue then from else Latest(samples)
  }

  /** FindAll(o => o.Timestamp <= t): the samples that seed the snapshot. */
  function AtOrBefore(samples: seq<Sample>, t: Time): (r: seq<Sample>)
    ensures |r| <= |samples|
  {
    if samples == [] then []
    else (if samples[0].timestamp <= t then [samples[0]] else []) + AtOrBefore(samples[1..], t)
  }

  /** The seed snapshot holds exactly the samples stamped at or before t. */
  lemma {:induction false} AtOrBeforeMembers(samples: seq<Sample>, t: Time)
    ensures forall s :: s in AtOrBefore(samples, t) <==> s in samples && s.timestamp <= t
  {
    if samples != [] {
      AtOrBeforeMembers(samples[1..], t);
      assert samples == [samples[0]] + samples[1..];
    }
  }

  /** FindAll(o => o.Timestamp == t): the samples of one replay instant, in stored order. */
  function At(samples: seq<Sample>, t: Time): (r: seq<Sample>)
    ensures |r| <= |samples|
  {
    if samples == [] then []
    else (if samples[0].timestamp == t then [samples[0]] else []) + At(samples[1..], t)
  }

  /** The batch of an instant holds exactly the samples stamped at that instant. */
  lemma {:induction false} AtMembers(samples: seq<Sample>, t: Time)
    ensures forall s :: s in At(samples, t) <==> s in samples && s.timestamp == t
  {
    if samples != [] {
      AtMembers(samples[1..], t);
      assert samples == [samples[0]] + samples[1..];
    }
  }

  /** FindIndex(o => o.Id == id): the first entry with that id, or -1. */
  function FindIndex(snapshot: seq<Sample>, id: string): (j: int)
    ensures -1 <= j < |snapshot|
    ensures 0 <= j ==> snapshot[j].id == id && forall k :: 0 <= k < j ==> snapshot[k].id != id
    ensures j == -1 ==> forall k :: 0 <= k < |snapshot| ==> snapshot[k].id != id
  {
    if snapshot == [] then -1
    else if snapshot[0].id == id then 0
    else
      var j := FindIndex(snapshot[1..], id);
      if j < 0 then -1 else j + 1
  }

  /** Find(o => o.Id == id): the first entry with that id, when there is one. */
  function Find(snapshot: seq<Sample>, id: string): Option<Sample>
  {
    var j := FindIndex(snapshot, id);
    if j < 0 then None else Some(snapshot[j])
  }

  /**
   * Folding one sample into the snapshot: the first entry with the same id is
   * replaced, or the sample is appended when there is none; every other
   * entry stays where it was.
   */
  function Apply(snapshot: seq<Sample>, s: Sample): (r: seq<Sample>)
    ensures FindIndex(snapshot, s.id) >= 0 ==> |r| == |snapshot|
    ensures FindIndex(snapshot, s.id) < 0 ==> |r| == |snapshot| + 1 && r[|snapshot|] == s
    ensures forall k :: 0 <= k < |snapshot| ==>
              r[k] == (if k == FindIndex(snapshot, s.id) then s else snapshot[k])
  {
    var j := FindIndex(snapshot, s.id);
    if j >= 0 then snapshot[j := s] else snapshot + [s]
  }

  /** After Apply, a lookup of the sample's id finds the sample; lookups of other ids are unaffected. */
  lemma ApplyFind(snapshot: seq<Sample>, s: Sample, id: string)
    ensures Find(Apply(snapshot, s), id) == if id == s.id then Some(s) else Find(snapshot, id)
  {
    var r := Apply(snapshot, s);
    var j := FindIndex(snapshot, s.id);
    assert forall k :: 0 <= k < |snapshot| ==> r[k].id == snapshot[k].id;
    var i := FindIndex(r, id);
    var i0 := FindIndex(snapshot, id);
    if i0 >= 0 {
      assert i == i0;
    } else if id == s.id {
      assert i == |snapshot|;
    } else {
      assert i == -1;
    }
  }

  /** The snapshot after folding a whole batch, one sample after the other. */
  function ApplyAll(snapshot: seq<Sample>, batch: seq<Sample>): seq<Sample>
    decreases |batch|
  {
    if batch == [] then snapshot else ApplyAll(Apply(snapshot, batch[0]), batch[1..])
  }

  /** The last sample of a batch with the given id. */
  function LastWithId(batch: seq<Sample>, id: string): (r: Option<Sample>)
    ensures r.Some? ==> r.value in batch && r.value.id == id
    ensures r.None? ==> forall s :: s in batch ==> s.id != id
  {
    if batch == [] then None
    else
      var rest := LastWithId(batch[1..], id);
      if rest.Some? then rest
      else if batch[0].id == id then Some(batch[0])
      else None
  }

  /**
   * The snapshot holds, for every id, the most recently folded sample: the
   * last sample of the batch with that id, or what the snapshot held before.
   */
  lemma {:induction false} ApplyAllFind(snapshot: seq<Sample>, batch: seq<Sample>, id: string)
    ensures Find(ApplyAll(snapshot, batch), id) ==
            match LastWithId(batch, id)
            case Some(s) => Some(s)
            case None => Find(snapshot, id)
    decreases |batch|
  {
    if batch != [] {
      ApplyAllFind(Apply(snapshot, batch[0]), batch[1..], id);
      ApplyFind(snapshot, batch[0], id);
    }
  }

  /** The `foreach` that folds the samples of instant `time` into the snapshot. */
  method UpdateSnapshot(snapshot: seq<Sample>, samples: seq<Sample>, time: Time) returns (r: seq<Sample>)
    ensures r == ApplyAll(snapshot, At(samples, time))
  {
    var batch := At(samples, time);
    r := snapshot;
    for k := 0 to |batch|
      invariant ApplyAll(r, batch[k..]) == ApplyAll(snapshot, batch)
    {
      assert batch[k..][1..] == batch[k + 1..];
      var j := FindIndex(r, batch[k].id);
      if j >= 0 {
        r := r[j := batch[k]];
      } else {
        r := r + [batch[k]];
      }
    }
    assert batch[|batch|..] == [];
  }

  /** Inserting an instant into an ascending list of distinct instants. */
  function Insert(ts: seq<Time>, t: Time): (r: seq<Time>)
    requires StrictlyIncreasing(ts)
    ensures StrictlyIncreasing(r)
    ensures forall x :: x in r <==> x in ts || x == t
  {
    if ts == [] then [t]
    else if t < ts[0] then
      ConsIncreasing(t, ts);
      [t] + ts
    else if t == ts[0] then ts
    else
      TailIncreasing(ts);
      var rest := Insert(ts[1..], t);
      assert rest != [] ==> rest[0] in rest;
      ConsIncreasing(ts[0], rest);
      [ts[0]] + rest
  }

  /** The tail of an ascending list is ascending, and above its head. */
  lemma TailIncreasing(ts: seq<Time>)
    requires StrictlyIncreasing(ts) && ts != []
    ensures StrictlyIncreasing(ts[1..])
    ensures forall x :: x in ts[1..] ==> ts[0] < x
  {
    forall i, j | 0 <= i < j < |ts| - 1 ensures ts[1..][i] < ts[1..][j] {
      assert ts[1..][i] == ts[i + 1] && ts[1..][j] == ts[j + 1];
    }
  }

  /** An instant below the head of an ascending list extends it at the front. */
  lemma ConsIncreasing(h: Time, ts: seq<Time>)
    requires StrictlyIncreasing(ts)
    requires ts != [] ==> h < ts[0]
    ensures StrictlyIncreasing([h] + ts)
  {
    var all := [h] + ts;
    forall i, j | 0 <= i < j < |all| ensures all[i] < all[j] {
      assert all[j] == ts[j - 1];
      if 0 < i {
        assert all[i] == ts[i - 1];
      } else if 1 < j {
        assert ts[0] < ts[j - 1];
      }
    }
  }

  /**
   * The replay instants: the distinct timestamps at or after the seed, in
   * ascending order (FindAll(>= seed).OrderBy(...).Select(...).Distinct()).
   */
  function Times(samples: seq<Sample>, seed: Time): (ts: seq<Time>)
    ensures StrictlyIncreasing(ts)
    ensures forall t :: t in ts <==> t >= seed && HasSampleAt(samples, t)
  {
    if samples == [] then []
    else
      var rest := Times(samples[1..], seed);
      assert forall t :: HasSampleAt(samples, t) <==> samples[0].timestamp == t || HasSampleAt(samples[1..], t) by {
        forall t ensures HasSampleAt(samples, t) ==> samples[0].timestamp == t || HasSampleAt(samples[1..], t) {
          if HasSampleAt(samples, t) {
            var s :| s in samples && s.timestamp == t;
            if s != samples[0] { assert s in samples[1..]; }
          }
        }
      }
      if samples[0].timestamp >= seed then Insert(rest, samples[0].timestamp) else rest
  }

  /** The snapshot once the samples of every instant in `times` have been folded in, in order. */
  function Replayed(init: seq<Sample>, samples: seq<Sample>, times: seq<Time>): seq<Sample>
    decreases |times|
  {
    if times == [] then init
    else ApplyAll(Replayed(init, samples, times[..|times| - 1]), At(samples, times[|times| - 1]))
  }

  /** The evaluator's response at each replay instant, on the snapshot of that instant. */
  function Evaluations(rule: Rule, init: seq<Sample>, samples: seq<Sample>, times: seq<Time>): (r: seq<Option<Evaluation>>)
    ensures |r| == |times|
    ensures forall k :: 0 <= k < |times| ==> r[k] == rule.Evaluate(Replayed(init, samples, times[..k + 1]))
    decreases |times|
  {
    if times == [] then []
    else
      var n := |times| - 1;
      var r := Evaluations(rule, init, samples, times[..n]) + [rule.Evaluate(Replayed(init, samples, times))];
      forall k | 0 <= k < n
        ensures r[k] == rule.Evaluate(Replayed(init, samples, times[..k + 1]))
      {
        assert times[..n][..k + 1] == times[..k + 1];
      }
      assert times[..n + 1] == times;
      r
  }

  /** Replaying one more instant folds that instant's samples into the snapshot. */
  lemma ReplayedStep(init: seq<Sample>, samples: seq<Sample>, times: seq<Time>, i: nat)
    requires i < |times|
    ensures Replayed(init, samples, times[..i + 1]) == ApplyAll(Replayed(init, samples, times[..i]), At(samples, times[i]))
  {
    assert times[..i + 1][..i] == times[..i];
  }

  /** The label of one response, None where the evaluator matched nothing. */
  function Label(evaluation: Option<Evaluation>): Option<string>
  {
    if evaluation.Some? then Some(evaluation.value.value) else None
  }

  /**
   * The labels of the responses, one more per instant as the loop reads them;
   * the k-th label is that of the k-th response.
   */
  function Labels(evaluations: seq<Option<Evaluation>>): (r: seq<Option<string>>)
    ensures |r| == |evaluations|
    ensures forall k :: 0 <= k < |r| ==> r[k] == Label(evaluations[k])
    decreases |evaluations|
  {
    if evaluations == [] then []
    else
      var n := |evaluations| - 1;
      var front := Labels(evaluations[..n]);
      assert forall k :: 0 <= k < n ==> evaluations[..n][k] == evaluations[k];
      front + [Label(evaluations[n])]
  }
}

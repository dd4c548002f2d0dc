/**
 * The "Oee" REST module: cuts the requested window into buckets of
 * `increment` seconds (the last one clipped to the end of the window) and
 * computes an OEE figure per bucket, Availability first and Performance
 * only when there is an Availability.
 */
module OeeModule {
  import opened Common
  import Availability
  import Performance
  import opened Oee

  datatype Bucket = Bucket(from: Time, to: Time)

  /** The end of the bucket starting at `from`: `increment` seconds later, clipped to `to`. */
  function NextStop(from: Time, to: Time, increment: int): (next: Time)
    ensures next <= to || (increment <= 0 && next == to)
    ensures next != to ==> increment > 0 && next == from + increment && from < next < to
  {
    if increment > 0 then (if from + increment > to then to else from + increment) else to
  }

  /**
   * The buckets of [from, to]: one when increment <= 0, otherwise
   * consecutive buckets of `increment` seconds, the last one clipped to
   * `to`.
   */
  function Buckets(from: Time, to: Time, increment: int): (bs: seq<Bucket>)
    ensures |bs| >= 1 && bs[0].from == from && bs[|bs| - 1].to == to
    decreases (to as int) - (from as int)
  {
    var next := NextStop(from, to, increment);
    if next == to then [Bucket(from, to)]
    else [Bucket(from, next)] + Buckets(next, to, increment)
  }

  /** Each bucket starts where the previous one ended. */
  ghost predicate Contiguous(bs: seq<Bucket>)
  {
    forall j, k :: 0 <= j && k == j + 1 && k < |bs| ==> bs[j].to == bs[k].from
  }

  /** Every bucket but the last spans exactly `increment` seconds. */
  ghost predicate FullSized(bs: seq<Bucket>, increment: int)
  {
    forall k :: 0 <= k < |bs| - 1 ==> bs[k].to as int - bs[k].from as int == increment
  }

  /** Every bucket runs forward inside [from, to]. */
  ghost predicate Inside(bs: seq<Bucket>, from: Time, to: Time)
  {
    forall k :: 0 <= k < |bs| ==> from <= bs[k].from <= bs[k].to <= to
  }

  /**
   * The buckets tile the window: each starts where the previous one ended,
   * all but the last span exactly `increment` seconds, none leaves
   * [from, to], and with increment <= 0 there is the one bucket [from, to].
   */
  lemma {:induction false} BucketsShape(from: Time, to: Time, increment: int)
    ensures Contiguous(Buckets(from, to, increment))
    ensures FullSized(Buckets(from, to, increment), increment)
    ensures from <= to ==> Inside(Buckets(from, to, increment), from, to)
    ensures increment <= 0 ==> Buckets(from, to, increment) == [Bucket(from, to)]
    decreases (to as int) - (from as int)
  {
    var next := NextStop(from, to, increment);
    if next != to {
      BucketsShape(next, to, increment);
      var rest := Buckets(next, to, increment);
      var bs := Buckets(from, to, increment);
      assert bs == [Bucket(from, next)] + rest;
      forall j, k | 0 <= j && k == j + 1 && k < |bs| ensures bs[j].to == bs[k].from {
        if j > 0 {
          assert bs[j] == rest[j - 1] && bs[k] == rest[k - 1];
        }
      }
      forall k | 0 <= k < |bs| - 1 ensures bs[k].to as int - bs[k].from as int == increment {
        if k > 0 {
          assert bs[k] == rest[k - 1];
        }
      }
      if from <= to {
        forall k | 0 <= k < |bs| ensures from <= bs[k].from <= bs[k].to <= to {
          if k > 0 {
            assert bs[k] == rest[k - 1];
          }
        }
      }
    }
  }

  /** For a positive increment and from < to there are ceil((to - from) / increment) buckets. */
  lemma {:induction false} BucketCount(from: Time, to: Time, increment: int)
    requires increment > 0 && from < to
    ensures var n := |Buckets(from, to, increment)|;
            (n - 1) * increment < to as int - from as int <= n * increment
    decreases (to as int) - (from as int)
  {
    var next := NextStop(from, to, increment);
    if next != to {
      BucketCount(next, to, increment);
      var m := |Buckets(next, to, increment)|;
      assert m * increment == (m - 1) * increment + increment;
      assert (m + 1) * increment == m * increment + increment;
    }
  }

  /** The OEE figure of one bucket, computed on a copy of the request narrowed to the bucket. */
  function BucketOee(query: Query, b: Bucket, device: Device, env: Env): (r: Result<OeeResult>)
    ensures r.Ok? ==> Valid(r.value) && r.value.from == b.from && r.value.to == b.to
  {
    var subquery := query.(from := b.from, to := b.to);
    var availability := Availability.Spec(subquery, device.dataItems, device.components, device.read, env);
    if availability.None? then Ok(OeeResult(b.from, b.to, None, None))
    else
      match Performance.Spec(subquery, device.dataItems, availability.value.internalEvents, device.read, env)
      case Err(f) => Err(f)
      case Ok(performance) => Ok(OeeResult(b.from, b.to, availability, performance))
  }

  /** Applies `f` to each element, in order. */
  function Map<A, B>(f: A -> B, xs: seq<A>): (ys: seq<B>)
    ensures |ys| == |xs|
    ensures forall k :: 0 <= k < |xs| ==> ys[k] == f(xs[k])
  {
    seq(|xs|, k requires 0 <= k < |xs| => f(xs[k]))
  }

  lemma MapAppend<A, B>(f: A -> B, xs: seq<A>, ys: seq<A>)
    ensures Map(f, xs + ys) == Map(f, xs) + Map(f, ys)
  {
    var all := xs + ys;
    assert forall k :: 0 <= k < |xs| ==> all[k] == xs[k];
    assert forall k :: |xs| <= k < |all| ==> all[k] == ys[k - |xs|];
  }

  /** The computation of one bucket's figure, as a function value. */
  function Figure(query: Query, device: Device, env: Env): Bucket -> Result<OeeResult>
  {
    b => BucketOee(query, b, device, env)
  }

  /** The figure of each bucket, in bucket order. */
  function Outcomes(query: Query, bs: seq<Bucket>, device: Device, env: Env): (rs: seq<Result<OeeResult>>)
    ensures |rs| == |bs|
    ensures forall k :: 0 <= k < |bs| ==> rs[k] == BucketOee(query, bs[k], device, env)
  {
    Map(Figure(query, device, env), bs)
  }

  /** The list the loop builds: every figure in order, or the first failure, which ends the loop. */
  function Collect(rs: seq<Result<OeeResult>>): (r: Result<seq<OeeResult>>)
    ensures r.Ok? <==> forall k :: 0 <= k < |rs| ==> rs[k].Ok?
    ensures r.Ok? ==> |r.value| == |rs| && forall k :: 0 <= k < |rs| ==> rs[k] == Ok(r.value[k])
    decreases |rs|
  {
    if rs == [] then Ok([])
    else
      var n := |rs| - 1;
      var front := Collect(rs[..n]);
      assert forall k :: 0 <= k < n ==> rs[..n][k] == rs[k];
      if front.Err? then front
      else if rs[n].Err? then Err(rs[n].fault)
      else Ok(front.value + [rs[n].value])
  }

  /** The first failure, after figures that all succeeded, is what the whole list yields. */
  lemma {:induction false} CollectFirstErr(rs: seq<Result<OeeResult>>, i: nat)
    requires i < |rs| && rs[i].Err? && forall k :: 0 <= k < i ==> rs[k].Ok?
    ensures Collect(rs) == Err(rs[i].fault)
    decreases |rs|
  {
    var n := |rs| - 1;
    assert forall k :: 0 <= k < n ==> rs[..n][k] == rs[k];
    if i < n {
      CollectFirstErr(rs[..n], i);
    } else {
      assert Collect(rs[..n]).Ok?;
    }
  }

  /** GetResponse as a value. */
  function Spec(query: Query, device: Device, env: Env): Reply<seq<OeeResult>>
  {
    if !query.isValid then NotHandled
    else if !device.agentFound || device.dataItems == [] || device.components == [] then Handled(None)
    else
      match Collect(Outcomes(query, Buckets(query.from, WindowEnd(query.to, env.now), query.increment), device, env))
      case Err(f) => Threw(f)
      case Ok(oees) => Handled(Some(oees))
  }

  /**
   * What a handled request writes: one figure per bucket, in order, each
   * covering its bucket, the buckets tiling [from, to]; a Performance only
   * next to an Availability. An invalid request is declined.
   */
  lemma SpecProperties(query: Query, device: Device, env: Env)
    ensures Spec(query, device, env).NotHandled? <==> !query.isValid
    ensures var r := Spec(query, device, env);
            r.Handled? && r.written.Some? ==>
              var bs := Buckets(query.from, WindowEnd(query.to, env.now), query.increment);
              |r.written.value| == |bs| >= 1 &&
              r.written.value[0].from == query.from &&
              r.written.value[|bs| - 1].to == WindowEnd(query.to, env.now) &&
              (forall k :: 0 <= k < |bs| ==> Valid(r.written.value[k])) &&
              (forall j, k :: 0 <= j && k == j + 1 && k < |bs| ==> r.written.value[j].to == r.written.value[k].from)
  {
    var r := Spec(query, device, env);
    if query.isValid && r.Handled? && r.written.Some? {
      var bs := Buckets(query.from, WindowEnd(query.to, env.now), query.increment);
      BucketsShape(query.from, WindowEnd(query.to, env.now), query.increment);
      var rs := Outcomes(query, bs, device, env);
      forall k | 0 <= k < |bs|
        ensures Valid(r.written.value[k]) && r.written.value[k].from == bs[k].from && r.written.value[k].to == bs[k].to
      {
        assert rs[k] == Ok(r.written.value[k]);
      }
    }
  }

  /** The bucket loop step: after emitting bucket [from, next] the rest of the buckets start at next. */
  lemma BucketsUnfold(from: Time, to: Time, increment: int)
    ensures Buckets(from, to, increment) ==
            [Bucket(from, NextStop(from, to, increment))] +
            (if NextStop(from, to, increment) == to then [] else Buckets(NextStop(from, to, increment), to, increment))
  {
  }

  /** The buckets still to do, after those done, once the next one is done. */
  lemma BucketsShift(done: seq<Bucket>, from: Time, to: Time, increment: int)
    ensures var next := NextStop(from, to, increment);
            done + Buckets(from, to, increment) ==
            done + [Bucket(from, next)] + (if next == to then [] else Buckets(next, to, increment))
  {
    BucketsUnfold(from, to, increment);
  }

  /** One more figure on an unfailed list is appended; on a failed one it changes nothing. */
  lemma CollectSnoc(rs: seq<Result<OeeResult>>, x: Result<OeeResult>)
    ensures Collect(rs + [x]) ==
            if Collect(rs).Err? then Collect(rs)
            else if x.Err? then Err(x.fault)
            else Ok(Collect(rs).value + [x.value])
  {
    assert (rs + [x])[..|rs|] == rs;
  }

  /** Appending a bucket appends its figure. */
  lemma OutcomesSnoc(query: Query, bs: seq<Bucket>, b: Bucket, device: Device, env: Env)
    ensures Outcomes(query, bs + [b], device, env) == Outcomes(query, bs, device, env) + [BucketOee(query, b, device, env)]
  {
  }

  /** Outcomes of two bucket lists back to back are the outcomes of each, back to back. */
  lemma OutcomesAppend(query: Query, bs: seq<Bucket>, cs: seq<Bucket>, device: Device, env: Env)
    ensures Outcomes(query, bs + cs, device, env) == Outcomes(query, bs, device, env) + Outcomes(query, cs, device, env)
  {
    MapAppend(Figure(query, device, env), bs, cs);
  }

  /** A failure after figures that all succeeded decides the list, whatever follows. */
  lemma CollectErrAt(front: seq<Result<OeeResult>>, x: Result<OeeResult>, more: seq<Result<OeeResult>>)
    requires Collect(front).Ok? && x.Err?
    ensures Collect(front + [x] + more) == Err(x.fault)
  {
    var rs := front + [x] + more;
    forall k | 0 <= k < |front| ensures rs[k].Ok? {
      assert rs[k] == front[k];
    }
    assert rs[|front|] == x;
    CollectFirstErr(rs, |front|);
  }

  /** The body of the do/while loop for one bucket. */
  method GetBucket(query: Query, from: Time, next: Time, device: Device, env: Env) returns (r: Result<OeeResult>)
    ensures r == BucketOee(query, Bucket(from, next), device, env)
  {
    var subquery := query.(from := from, to := next);
    var oee := OeeResult(from, next, None, None);
    var availability := Availability.Get(subquery, device.dataItems, device.components, device.read, env);
    if availability.Some? {
      oee := oee.(availability := availability);
      var performance := Performance.Get(subquery, device.dataItems, availability.value.internalEvents, device.read, env);
      if performance.Err? {
        return Err(performance.fault);
      }
      if performance.value.Some? {
        oee := oee.(performance := performance.value);
      }
    }
    return Ok(oee);
  }

  /**
   * GetResponse: declines an invalid request; writes nothing when the
   * device, its data items or its components are missing; otherwise writes
   * one OEE figure per bucket. A failure inside Performance escapes.
   */
  method GetResponse(query: Query, device: Device, env: Env) returns (r: Reply<seq<OeeResult>>)
    ensures r == Spec(query, device, env)
  {
    if !query.isValid {
      return NotHandled;
    }
    if !device.agentFound || device.dataItems == [] || device.components == [] {
      return Handled(None);
    }
    var to := query.to;
    if query.to == MinValue {
      to := env.now;
    }
    var oees := BucketLoop(query, to, device, env);
    if oees.Err? {
      return Threw(oees.fault);
    }
    return Handled(Some(oees.value));
  }

  /** The do/while loop over the buckets of [query.from, to]. */
  method BucketLoop(query: Query, to: Time, device: Device, env: Env) returns (r: Result<seq<OeeResult>>)
    ensures r == Collect(Outcomes(query, Buckets(query.from, to, query.increment), device, env))
  {
    var increment := query.increment;
    var from := query.from;
    var next := to;
    if increment > 0 {
      next := from + increment;
    }
    if next > to {
      next := to;
    }
    var oees: seq<OeeResult> := [];
    ghost var done: seq<Bucket> := [];
    ghost var all := Buckets(query.from, to, increment);
    // The do/while test `next <= to` always holds; the loop ends at the break.
    while true
      invariant next == NextStop(from, to, increment)
      invariant all == done + Buckets(from, to, increment)
      invariant Collect(Outcomes(query, done, device, env)) == Ok(oees)
      decreases (to as int) - (from as int)
    {
      var oee := GetBucket(query, from, next, device, env);
      ghost var rest := if next == to then [] else Buckets(next, to, increment);
      BucketsShift(done, from, to, increment);
      if oee.Err? {
        OutcomesAppend(query, done + [Bucket(from, next)], rest, device, env);
        OutcomesSnoc(query, done, Bucket(from, next), device, env);
        CollectErrAt(Outcomes(query, done, device, env), oee, Outcomes(query, rest, device, env));
        return Err(oee.fault);
      }
      OutcomesSnoc(query, done, Bucket(from, next), device, env);
      CollectSnoc(Outcomes(query, done, device, env), oee);
      oees := oees + [oee.value];
      done := done + [Bucket(from, next)];
      if next == to {
        assert all == done;
        break;
      }
      from := next;
      next := next + increment;
      if next > to {
        next := to;
      }
    }
    return Ok(oees);
  }
}

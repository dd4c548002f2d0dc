/**
 * The "Alarms" REST module: reads the samples of the device's CONDITION data
 * items and answers with one alarm per sample that is not NORMAL.
 */
module Alarms {
  import opened Common

  const ConditionCategory := "CONDITION"
  const NormalCondition := "NORMAL"

  /** An alarm built from one condition sample (the Alarm constructor keeps the sample's data). */
  datatype Alarm = Alarm(source: Sample)

  /** The ids of the CONDITION data items, in definition order. */
  function ConditionIds(dataItems: seq<DataItem>): (ids: seq<string>)
    ensures forall id :: id in ids <==> exists d :: d in dataItems && d.category == ConditionCategory && d.id == id
    ensures |ids| <= |dataItems|
    decreases |dataItems|
  {
    if dataItems == [] then []
    else
      var n := |dataItems| - 1;
      assert dataItems == dataItems[..n] + [dataItems[n]];
      ConditionIds(dataItems[..n]) + (if dataItems[n].category == ConditionCategory then [dataItems[n].id] else [])
  }

  /** A single data item gives its id exactly when it is a CONDITION item. */
  lemma ConditionIdsSingle(d: DataItem)
    ensures ConditionIds([d]) == if d.category == ConditionCategory then [d.id] else []
  {
    assert [d][..0] == [];
  }

  /**
   * The ids keep definition order: the ids of two runs of data items back to
   * back are the ids of each run, back to back.
   */
  lemma {:induction false} ConditionIdsAppend(xs: seq<DataItem>, ys: seq<DataItem>)
    ensures ConditionIds(xs + ys) == ConditionIds(xs) + ConditionIds(ys)
    decreases |ys|
  {
    if ys == [] {
      assert xs + ys == xs;
    } else {
      var n := |ys| - 1;
      var zs, y := ys[..n], ys[n];
      var tail := if y.category == ConditionCategory then [y.id] else [];
      assert (xs + ys)[..|xs + ys| - 1] == xs + zs;
      assert ConditionIds(xs + ys) == ConditionIds(xs + zs) + tail;
      ConditionIdsAppend(xs, zs);
      assert ConditionIds(ys) == ConditionIds(zs) + tail;
    }
  }

  /** The alarms of a sample list: one per sample whose condition is not NORMAL, in sample order. */
  function AlarmsOf(samples: seq<Sample>): (alarms: seq<Alarm>)
    ensures |alarms| <= |samples|
    decreases |samples|
  {
    if samples == [] then []
    else
      var n := |samples| - 1;
      AlarmsOf(samples[..n]) + (if samples[n].condition != NormalCondition then [Alarm(samples[n])] else [])
  }

  /** One more sample adds its alarm at the end when it is not NORMAL. */
  lemma AlarmsOfSnoc(xs: seq<Sample>, x: Sample)
    ensures AlarmsOf(xs + [x]) == AlarmsOf(xs) + (if x.condition != NormalCondition then [Alarm(x)] else [])
  {
    assert (xs + [x])[..|xs|] == xs;
  }

  /** The filter distributes over concatenation, so alarms keep the relative order of their samples. */
  lemma {:induction false} AlarmsOfAppend(xs: seq<Sample>, ys: seq<Sample>)
    ensures AlarmsOf(xs + ys) == AlarmsOf(xs) + AlarmsOf(ys)
    decreases |ys|
  {
    if ys == [] {
      assert xs + ys == xs;
    } else {
      var n := |ys| - 1;
      var zs, y := ys[..n], ys[n];
      var tail := if y.condition != NormalCondition then [Alarm(y)] else [];
      calc {
        AlarmsOf(xs + ys);
        { assert xs + ys == (xs + zs) + [y]; }
        AlarmsOf((xs + zs) + [y]);
        { AlarmsOfSnoc(xs + zs, y); }
        AlarmsOf(xs + zs) + tail;
        { AlarmsOfAppend(xs, zs); }
        AlarmsOf(xs) + AlarmsOf(zs) + tail;
        { AlarmsOfSnoc(zs, y); assert zs + [y] == ys; }
        AlarmsOf(xs) + AlarmsOf(ys);
      }
    }
  }

  /** An alarm is present exactly when its sample is one of the input's and is not NORMAL. */
  lemma {:induction false} AlarmsOfMembers(samples: seq<Sample>)
    ensures forall a :: a in AlarmsOf(samples) <==> a.source in samples && a.source.condition != NormalCondition
    decreases |samples|
  {
    if samples != [] {
      var n := |samples| - 1;
      AlarmsOfMembers(samples[..n]);
      assert samples == samples[..n] + [samples[n]];
    }
  }

  /** Every sample becomes an alarm exactly when none of them is NORMAL. */
  lemma {:induction false} AlarmsOfCount(samples: seq<Sample>)
    ensures |AlarmsOf(samples)| == |samples| <==> forall k :: 0 <= k < |samples| ==> samples[k].condition != NormalCondition
    decreases |samples|
  {
    if samples != [] {
      var n := |samples| - 1;
      var front := samples[..n];
      AlarmsOfCount(front);
      assert forall k :: 0 <= k < n ==> front[k] == samples[k];
      if samples[n].condition == NormalCondition {
        assert |AlarmsOf(samples)| <= n;
      }
    }
  }

  /** There is no alarm exactly when every sample is NORMAL. */
  lemma AlarmsOfNone(samples: seq<Sample>)
    ensures AlarmsOf(samples) == [] <==> forall k :: 0 <= k < |samples| ==> samples[k].condition == NormalCondition
  {
    var alarms := AlarmsOf(samples);
    AlarmsOfMembers(samples);
    if alarms != [] {
      assert alarms[0] in alarms;
      var k :| 0 <= k < |samples| && samples[k] == alarms[0].source;
    }
    forall k | 0 <= k < |samples| && samples[k].condition != NormalCondition
      ensures alarms != []
    {
      assert Alarm(samples[k]) in alarms;
    }
  }

  /** GetResponse, one pass of its polling loop, as a value. */
  function Spec(query: Query, device: Device): Reply<seq<Alarm>>
  {
    if !query.isValid then NotHandled
    else if !device.agentFound then Handled(None)
    else
      var ids := ConditionIds(device.dataItems);
      if ids == [] then Handled(None)
      else
        var samples := device.read(SampleQuery(Some(ids), query.from, query.to, query.at, query.count));
        if samples == [] then Handled(None)
        else
          var alarms := AlarmsOf(samples);
          if alarms == [] then Handled(None) else Handled(Some(alarms))
  }

  /**
   * A valid request is always handled; what it writes, when anything, is
   * the non-NORMAL samples of the CONDITION items, one alarm each, in order,
   * and nothing is written when every sample is NORMAL.
   */
  lemma SpecProperties(query: Query, device: Device)
    ensures Spec(query, device).NotHandled? <==> !query.isValid
    ensures !Spec(query, device).Threw?
    ensures var r := Spec(query, device);
            r.Handled? && r.written.Some? ==>
              device.agentFound &&
              var samples := device.read(SampleQuery(Some(ConditionIds(device.dataItems)), query.from, query.to, query.at, query.count));
              r.written.value == AlarmsOf(samples) && r.written.value != [] &&
              forall a :: a in r.written.value ==> a.source in samples && a.source.condition != NormalCondition
    ensures query.isValid && device.agentFound && ConditionIds(device.dataItems) != [] ==>
              var samples := device.read(SampleQuery(Some(ConditionIds(device.dataItems)), query.from, query.to, query.at, query.count));
              (forall k :: 0 <= k < |samples| ==> samples[k].condition == NormalCondition) ==> Spec(query, device) == Handled(None)
  {
    if query.isValid && device.agentFound && ConditionIds(device.dataItems) != [] {
      var samples := device.read(SampleQuery(Some(ConditionIds(device.dataItems)), query.from, query.to, query.at, query.count));
      AlarmsOfMembers(samples);
      AlarmsOfNone(samples);
    }
  }

  /** The `foreach` over the samples: an alarm for each sample that is not NORMAL. */
  method CollectAlarms(samples: seq<Sample>) returns (alarms: seq<Alarm>)
    ensures alarms == AlarmsOf(samples)
  {
    alarms := [];
    for i := 0 to |samples|
      invariant alarms == AlarmsOf(samples[..i])
    {
      var sample := samples[i];
      assert samples[..i + 1][..i] == samples[..i];
      if sample.condition != NormalCondition {
        alarms := alarms + [Alarm(sample)];
      }
    }
    assert samples[..|samples|] == samples;
  }

  /** The CONDITION data item ids (FindAll(...).Select(o => o.Id)). */
  method GetConditionIds(dataItems: seq<DataItem>) returns (ids: seq<string>)
    ensures ids == ConditionIds(dataItems)
  {
    ids := [];
    for i := 0 to |dataItems|
      invariant ids == ConditionIds(dataItems[..i])
    {
      assert dataItems[..i + 1][..i] == dataItems[..i];
      if dataItems[i].category == ConditionCategory {
        ids := ids + [dataItems[i].id];
      }
    }
    assert dataItems[..|dataItems|] == dataItems;
  }

  /**
   * GetResponse for one pass of the polling loop: declines an invalid
   * request, otherwise writes the alarms when there are any.
   */
  method GetResponse(query: Query, device: Device) returns (r: Reply<seq<Alarm>>)
    ensures r == Spec(query, device)
  {
    if !query.isValid {
      return NotHandled;
    }
    if !device.agentFound {
      return Handled(None);
    }
    var errorIds := GetConditionIds(device.dataItems);
    if errorIds == [] {
      return Handled(None);
    }
    var samples := device.read(SampleQuery(Some(errorIds), query.from, query.to, query.at, query.count));
    if samples == [] {
      return Handled(None);
    }
    var alarms := CollectAlarms(samples);
    if alarms == [] {
      return Handled(None);
    }
    return Handled(Some(alarms));
  }
}

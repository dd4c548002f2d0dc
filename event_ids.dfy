/**
 * GetEventIds / GetFilterIds: the data item ids a rule depends on, collected
 * from the filters of the rule's plain triggers, each id once, in the order
 * of its first match.
 */
module EventIds {
  import opened Common

  predicate NoDuplicates(xs: seq<string>)
  {
    forall i, j :: 0 <= i < j < |xs| ==> xs[i] != xs[j]
  }

  /** Keeps the first occurrence of every element, in order. */
  function Dedup(xs: seq<string>): (r: seq<string>)
    ensures NoDuplicates(r)
    ensures forall x :: x in r <==> x in xs
    ensures |r| <= |xs|
    decreases |xs|
  {
    if xs == [] then []
    else
      var n := |xs| - 1;
      var d := Dedup(xs[..n]);
      assert xs == xs[..n] + [xs[n]];
      if xs[n] in d then d else d + [xs[n]]
  }

  /** The position of the first occurrence of `x` in `xs`. */
  function First(xs: seq<string>, x: string): (i: nat)
    requires x in xs
    ensures i < |xs| && xs[i] == x
    ensures forall j :: 0 <= j < i ==> xs[j] != x
    decreases |xs|
  {
    if xs[0] == x then 0 else 1 + First(xs[1..], x)
  }

  /** `r` lists elements of `xs` in the order of their first occurrence in `xs`. */
  predicate InFirstOrder(r: seq<string>, xs: seq<string>)
  {
    forall i, j :: 0 <= i < j < |r| ==> r[i] in xs && r[j] in xs && First(xs, r[i]) < First(xs, r[j])
  }

  /** Appending an element does not move the first occurrence of one already present. */
  lemma FirstSnoc(xs: seq<string>, x: string, y: string)
    requires y in xs
    ensures First(xs + [x], y) == First(xs, y)
  {
    assert (xs + [x])[First(xs, y)] == y;
  }

  /** A new element's first occurrence is where it is appended. */
  lemma FirstLast(xs: seq<string>, x: string)
    requires x !in xs
    ensures First(xs + [x], x) == |xs|
  {
  }

  /** De-duplication keeps the elements in the order of their first occurrence. */
  lemma {:induction false} DedupOrder(xs: seq<string>)
    ensures InFirstOrder(Dedup(xs), xs)
    decreases |xs|
  {
    if xs != [] {
      var n := |xs| - 1;
      var front := xs[..n];
      var d := Dedup(front);
      DedupOrder(front);
      assert xs == front + [xs[n]];
      forall y | y in d ensures y in xs && First(xs, y) == First(front, y) {
        FirstSnoc(front, xs[n], y);
      }
      if xs[n] !in d {
        FirstLast(front, xs[n]);
        var r := d + [xs[n]];
        forall i, j | 0 <= i < j < |r| ensures r[i] in xs && r[j] in xs && First(xs, r[i]) < First(xs, r[j]) {
          assert r[i] == d[i] && d[i] in d;
          if j < |d| {
            assert r[j] == d[j] && d[j] in d;
          }
        }
      }
    }
  }

  /** The ids of the data items the filter matches, in definition order, repeats kept. */
  function MatchingIds(filter: string, dataItems: seq<DataItem>, components: seq<Component>,
                       isMatch: (string, DataItem, seq<Component>) -> bool): (r: seq<string>)
    ensures forall id :: id in r <==> exists d :: d in dataItems && isMatch(filter, d, components) && d.id == id
    decreases |dataItems|
  {
    if dataItems == [] then []
    else
      var n := |dataItems| - 1;
      assert dataItems == dataItems[..n] + [dataItems[n]];
      MatchingIds(filter, dataItems[..n], components, isMatch) +
      (if isMatch(filter, dataItems[n], components) then [dataItems[n].id] else [])
  }

  /** The filters of the rule's plain triggers (Triggers.OfType<Trigger>()), response by response. */
  function Filters(responses: seq<EventResponse>): seq<string>
    decreases |responses|
  {
    if responses == [] then []
    else
      var n := |responses| - 1;
      Filters(responses[..n]) + TriggerFilters(responses[n].triggers)
  }

  function TriggerFilters(triggers: seq<Trigger>): seq<string>
    decreases |triggers|
  {
    if triggers == [] then []
    else
      var n := |triggers| - 1;
      TriggerFilters(triggers[..n]) + (if triggers[n].Trigger? then [triggers[n].filter] else [])
  }

  /** GetFilterIds as a value: the matching ids, first occurrences only. */
  function FilterIds(filter: string, dataItems: seq<DataItem>, components: seq<Component>,
                     isMatch: (string, DataItem, seq<Component>) -> bool): seq<string>
  {
    Dedup(MatchingIds(filter, dataItems, components, isMatch))
  }

  /**
   * The ids of the data items the filter matches: each once, and in the
   * order of the first data item, in definition order, that matches with it.
   */
  lemma FilterIdsProperties(filter: string, dataItems: seq<DataItem>, components: seq<Component>,
                            isMatch: (string, DataItem, seq<Component>) -> bool)
    ensures var ids := FilterIds(filter, dataItems, components, isMatch);
            NoDuplicates(ids) &&
            (forall id :: id in ids <==> exists d :: d in dataItems && isMatch(filter, d, components) && d.id == id) &&
            InFirstOrder(ids, MatchingIds(filter, dataItems, components, isMatch))
  {
    DedupOrder(MatchingIds(filter, dataItems, components, isMatch));
  }

  /** The per-filter id lists, concatenated in filter order. */
  function Concat(filters: seq<string>, dataItems: seq<DataItem>, components: seq<Component>,
                  isMatch: (string, DataItem, seq<Component>) -> bool): (r: seq<string>)
    ensures forall id :: id in r <==> exists f :: f in filters && id in FilterIds(f, dataItems, components, isMatch)
    decreases |filters|
  {
    if filters == [] then []
    else
      var n := |filters| - 1;
      assert filters == filters[..n] + [filters[n]];
      Concat(filters[..n], dataItems, components, isMatch) + FilterIds(filters[n], dataItems, components, isMatch)
  }

  /** GetEventIds as a value. */
  function EventIdsOf(e: Event, dataItems: seq<DataItem>, components: seq<Component>,
                      isMatch: (string, DataItem, seq<Component>) -> bool): seq<string>
  {
    Dedup(Concat(Filters(e.responses), dataItems, components, isMatch))
  }

  /**
   * The ids of the rule: each once, exactly those some plain trigger filter
   * matches, in the order first seen across the filters' id lists.
   */
  lemma EventIdsProperties(e: Event, dataItems: seq<DataItem>, components: seq<Component>,
                           isMatch: (string, DataItem, seq<Component>) -> bool)
    ensures var ids := EventIdsOf(e, dataItems, components, isMatch);
            NoDuplicates(ids) &&
            (forall id :: id in ids <==>
               exists f :: f in Filters(e.responses) && id in FilterIds(f, dataItems, components, isMatch)) &&
            InFirstOrder(ids, Concat(Filters(e.responses), dataItems, components, isMatch))
  {
    DedupOrder(Concat(Filters(e.responses), dataItems, components, isMatch));
  }

  /** Appending one element to a de-duplicated list, as `if (!ids.Exists(...)) ids.Add(...)` does. */
  lemma DedupSnoc(xs: seq<string>, x: string)
    ensures Dedup(xs + [x]) == if x in Dedup(xs) then Dedup(xs) else Dedup(xs) + [x]
  {
    assert (xs + [x])[..|xs|] == xs;
  }

  /** A list without repeats is its own de-duplication. */
  lemma {:induction false} NoDuplicatesDedup(xs: seq<string>)
    requires NoDuplicates(xs)
    ensures Dedup(xs) == xs
    decreases |xs|
  {
    if xs != [] {
      var n := |xs| - 1;
      NoDuplicatesDedup(xs[..n]);
      assert xs == xs[..n] + [xs[n]];
      assert xs[n] !in xs[..n];
    }
  }

  /**
   * GetFilterIds: the ids of the data items the filter matches, each once,
   * in definition order.
   */
  method GetFilterIds(filter: string, dataItems: seq<DataItem>, components: seq<Component>,
                      isMatch: (string, DataItem, seq<Component>) -> bool) returns (ids: seq<string>)
    ensures ids == FilterIds(filter, dataItems, components, isMatch)
  {
    ids := [];
    for i := 0 to |dataItems|
      invariant ids == Dedup(MatchingIds(filter, dataItems[..i], components, isMatch))
    {
      var dataItem := dataItems[i];
      ghost var before := MatchingIds(filter, dataItems[..i], components, isMatch);
      assert dataItems[..i + 1][..i] == dataItems[..i];
      if isMatch(filter, dataItem, components) {
        assert MatchingIds(filter, dataItems[..i + 1], components, isMatch) == before + [dataItem.id];
        DedupSnoc(before, dataItem.id);
        if dataItem.id !in ids {
          ids := ids + [dataItem.id];
        }
      } else {
        assert MatchingIds(filter, dataItems[..i + 1], components, isMatch) == before + [];
        assert before + [] == before;
      }
    }
    assert dataItems[..|dataItems|] == dataItems;
  }

  lemma DedupStep(before: seq<string>, xs: seq<string>, k: nat)
    requires k < |xs|
    ensures Dedup(before + xs[..k + 1]) ==
            var d := Dedup(before + xs[..k]); if xs[k] in d then d else d + [xs[k]]
  {
    assert before + xs[..k + 1] == (before + xs[..k]) + [xs[k]];
    DedupSnoc(before + xs[..k], xs[k]);
  }

  /** The inner `foreach`: append each id not yet present, in order. */
  method AddMissing(ids: seq<string>, ghost before: seq<string>, xs: seq<string>) returns (r: seq<string>)
    requires ids == Dedup(before)
    ensures r == Dedup(before + xs)
  {
    r := ids;
    assert before + xs[..0] == before;
    for k := 0 to |xs|
      invariant r == Dedup(before + xs[..k])
    {
      DedupStep(before, xs, k);
      if xs[k] !in r {
        r := r + [xs[k]];
      }
    }
    assert xs[..|xs|] == xs;
  }

  /**
   * GetEventIds: the ids every plain trigger filter of the rule matches, each
   * once, in the order first seen.
   */
  method GetEventIds(e: Event, dataItems: seq<DataItem>, components: seq<Component>,
                     isMatch: (string, DataItem, seq<Component>) -> bool) returns (ids: seq<string>)
    ensures ids == EventIdsOf(e, dataItems, components, isMatch)
  {
    var filters := Filters(e.responses);
    ids := [];
    for i := 0 to |filters|
      invariant ids == Dedup(Concat(filters[..i], dataItems, components, isMatch))
    {
      var filterIds := GetFilterIds(filters[i], dataItems, components, isMatch);
      assert filters[..i + 1][..i] == filters[..i];
      ids := AddMissing(ids, Concat(filters[..i], dataItems, components, isMatch), filterIds);
    }
    assert filters[..|filters|] == filters;
  }
}

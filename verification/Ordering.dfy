/** Putting a set of integers in its one ascending order. */
module Ordering {

  ghost predicate AscendingOrder(s: seq<int>) {
    forall i, j :: 0 <= i < j < |s| ==> s[i] < s[j]
  }

  /** A set in its one ascending order. */
  function Sorted(elements: set<int>): (s: seq<int>)
    ensures forall x :: x in s <==> x in elements
    ensures AscendingOrder(s)
    decreases |elements|
  {
    if elements == {} then []
    else
      var top := Maximum(elements);
      var rest := Sorted(elements - {top});
      ToppedAscends(rest, top);
      rest + [top]
  }

  lemma ToppedAscends(rest: seq<int>, top: int)
    requires AscendingOrder(rest) && forall x :: x in rest ==> x < top
    ensures AscendingOrder(rest + [top])
  {
    assert forall i :: 0 <= i < |rest| ==> rest[i] in rest;
  }

  function Maximum(elements: set<int>): (top: int)
    requires elements != {}
    ensures top in elements && forall x :: x in elements ==> x <= top
  {
    SomeMaximum(elements);
    var top :| top in elements && forall x :: x in elements ==> x <= top;
    top
  }

  lemma {:induction false} SomeMaximum(elements: set<int>)
    ensures elements == {} || exists top :: top in elements && forall x :: x in elements ==> x <= top
    decreases |elements|
  {
    SomeElement(elements);
    if elements != {} {
      var x :| x in elements;
      var rest := elements - {x};
      SomeMaximum(rest);
      if rest == {} {
        assert elements == {x};
      } else {
        var top :| top in rest && forall y :: y in rest ==> y <= top;
        GreaterOf(elements, x, top);
      }
    }
  }

  lemma GreaterOf(elements: set<int>, x: int, top: int)
    requires x in elements && top in elements && forall y :: y in elements - {x} ==> y <= top
    ensures exists m :: m in elements && forall y :: y in elements ==> y <= m
  {
    var m := if x > top then x else top;
    forall y | y in elements ensures y <= m { assert y == x || y in elements - {x}; }
  }

  lemma SomeElement(elements: set<int>)
    ensures elements == {} || exists x :: x in elements
  {
    if forall x :: x !in elements { assert elements == {}; }
  }

  /** There is only one such order. */
  lemma {:induction false} OneOrder(s: seq<int>, elements: set<int>)
    requires AscendingOrder(s) && forall x :: x in s <==> x in elements
    ensures s == Sorted(elements)
    decreases |s|
  {
    SortedUnfolds(elements);
    hide Sorted, AscendingOrder, Maximum;
    if s == [] {
      SomeElement(elements);
    } else {
      var top := s[|s| - 1];
      LastIsTop(s, elements);
      OneOrder(s[..|s| - 1], elements - {top});
    }
  }

  lemma SortedUnfolds(elements: set<int>)
    ensures if elements == {} then Sorted(elements) == []
            else Sorted(elements) == Sorted(elements - {Maximum(elements)}) + [Maximum(elements)]
  {
  }

  lemma LastIsTop(s: seq<int>, elements: set<int>)
    requires s != [] && AscendingOrder(s) && forall x :: x in s <==> x in elements
    ensures var rest, top := s[..|s| - 1], s[|s| - 1];
            && elements != {} && top == Maximum(elements) && AscendingOrder(rest)
            && forall x :: x in rest <==> x in elements - {top}
  {
    var rest, top := s[..|s| - 1], s[|s| - 1];
    assert top in s;
    assert Maximum(elements) in s;
    forall x ensures x in rest <==> x in elements - {top} {
      if x in rest {
        var i :| 0 <= i < |rest| && rest[i] == x;
        assert s[i] in s;
      }
    }
  }

  /** Sorts by insertion: each element is carried down past the greater ones. */
  method SortAscending(items: seq<int>) returns (s: seq<int>)
    requires forall i, j :: 0 <= i < j < |items| ==> items[i] != items[j]
    ensures s == Sorted(set x | x in items)
  {
    s := [];
    for k := 0 to |items|
      invariant AscendingOrder(s) && forall x :: x in s <==> x in items[..k]
    {
      assert items[..k + 1] == items[..k] + [items[k]];
      assert items[k] !in items[..k];
      s := InsertInOrder(s, items[k]);
    }
    assert items[..|items|] == items;
    OneOrder(s, set x | x in items);
  }

  method InsertInOrder(sorted: seq<int>, item: int) returns (s: seq<int>)
    requires AscendingOrder(sorted) && item !in sorted
    ensures AscendingOrder(s) && forall x :: x in s <==> x in sorted || x == item
  {
    var i := |sorted|;
    while i > 0 && sorted[i - 1] > item
      invariant 0 <= i <= |sorted| && forall j :: i <= j < |sorted| ==> sorted[j] > item
    {
      i := i - 1;
    }
    s := sorted[..i] + [item] + sorted[i..];
    Placed(sorted, item, i);
  }

  lemma Placed(sorted: seq<int>, item: int, i: nat)
    requires AscendingOrder(sorted) && item !in sorted && i <= |sorted|
    requires (forall j :: i <= j < |sorted| ==> sorted[j] > item) && (i > 0 ==> sorted[i - 1] <= item)
    ensures var s := sorted[..i] + [item] + sorted[i..];
            AscendingOrder(s) && forall x :: x in s <==> x in sorted || x == item
  {
    Below(sorted, item, i);
    var s := sorted[..i] + [item] + sorted[i..];
    assert |s| == |sorted| + 1 && s[i] == item;
    assert forall k :: 0 <= k < i ==> s[k] == sorted[k];
    assert forall k :: i < k < |s| ==> s[k] == sorted[k - 1];
    PlacedMembers(sorted, item, i);
  }

  lemma PlacedMembers(sorted: seq<int>, item: int, i: nat)
    requires i <= |sorted|
    ensures forall x :: x in sorted[..i] + [item] + sorted[i..] <==> x in sorted || x == item
  {
    assert sorted == sorted[..i] + sorted[i..];
  }

  lemma Below(sorted: seq<int>, item: int, i: nat)
    requires AscendingOrder(sorted) && item !in sorted && i <= |sorted| && (i > 0 ==> sorted[i - 1] <= item)
    ensures forall k :: 0 <= k < i ==> sorted[k] < item
  {
    if i > 0 { assert sorted[i - 1] in sorted; }
    forall k | 0 <= k < i ensures sorted[k] < item { assert k < i - 1 ==> sorted[k] < sorted[i - 1]; }
  }

  /** The elements of a set in ascending order: taken as they come, then sorted. */
  method ElementsInOrder(elements: set<int>) returns (s: seq<int>)
    ensures s == Sorted(elements)
  {
    var items: seq<int> := [];
    var remaining := elements;
    while remaining != {}
      invariant remaining <= elements
      invariant forall i, j :: 0 <= i < j < |items| ==> items[i] != items[j]
      invariant forall x :: x in items <==> x in elements - remaining
      decreases |remaining|
    {
      SomeElement(remaining);
      var x :| x in remaining;
      assert x !in items;
      items, remaining := items + [x], remaining - {x};
    }
    assert elements - remaining == elements;
    assert (set x | x in items) == elements;
    s := SortAscending(items);
  }
}

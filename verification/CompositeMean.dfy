/** The composite of one session: a mean summed in id order, whatever order the returns came in. */
module CompositeMean {
  import opened Prelude
  import opened FeatureHistory

  datatype CompositeValue = CompositeValue(mean: Option<Float>, contributors: nat)

  datatype Contributor = Contributor(id: Id, value: Float)

  /** Floating addition and division, about which nothing is assumed: not even that addition
      is associative or commutative. */
  datatype Floats = Floats(zero: Float, add: (Float, Float) -> Float, divide: (Float, nat) -> Float)

  ghost predicate Distinct(contributors: seq<Contributor>) {
    forall i, j :: 0 <= i < j < |contributors| ==> contributors[i].id != contributors[j].id
  }

  ghost predicate Ascends(contributors: seq<Contributor>) {
    forall i, j :: 0 <= i < j < |contributors| ==> contributors[i].id < contributors[j].id
  }

  /** The returns by instrument, with no order among them. */
  function Returns(contributors: seq<Contributor>): map<Id, Float> {
    if contributors == [] then map[]
    else
      var last := contributors[|contributors| - 1];
      Returns(contributors[..|contributors| - 1])[last.id := last.value]
  }

  ghost predicate IsTop(m: map<Id, Float>, top: Id) {
    top in m && forall id :: id in m ==> id <= top
  }

  /** The sum in id order: the greatest id is added last. */
  ghost function Total(f: Floats, m: map<Id, Float>): Float
    decreases |m|
  {
    if top :| IsTop(m, top) then f.add(Total(f, m - {top}), m[top]) else f.zero
  }

  /** What the session's composite is, as a function of the returns alone. */
  ghost function MeanOf(f: Floats, minimum: nat, m: map<Id, Float>): CompositeValue {
    if |m| < minimum then CompositeValue(None, |m|)
    else CompositeValue(Some(f.divide(Total(f, m), |m|)), |m|)
  }

  lemma TopIsUnique(m: map<Id, Float>, a: Id, b: Id)
    requires IsTop(m, a) && IsTop(m, b)
    ensures a == b
  {
  }

  /** Appending a contributor sets its return. */
  lemma ReturnsMore(sorted: seq<Contributor>, c: Contributor)
    ensures Returns(sorted + [c]) == Returns(sorted)[c.id := c.value]
  {
    assert (sorted + [c])[..|sorted|] == sorted;
  }

  ghost predicate Has(contributors: seq<Contributor>, id: Id) {
    exists i :: 0 <= i < |contributors| && contributors[i].id == id
  }

  lemma {:induction false} ReturnsOf(contributors: seq<Contributor>)
    requires Distinct(contributors)
    ensures forall id :: id in Returns(contributors) <==> Has(contributors, id)
    ensures forall i :: 0 <= i < |contributors| ==>
            contributors[i].id in Returns(contributors)
              && Returns(contributors)[contributors[i].id] == contributors[i].value
    ensures |Returns(contributors)| == |contributors|
  {
    if contributors != [] {
      var last := |contributors| - 1;
      var rest, c := contributors[..last], contributors[last];
      ReturnsOf(rest);
      assert contributors == rest + [c];
      ReturnsMore(rest, c);
      assert !Has(rest, c.id);
      hide Returns, Has;
      assert Returns(contributors).Keys == Returns(rest).Keys + {c.id};
      forall id ensures id in Returns(contributors) <==> Has(contributors, id) { HasMore(rest, c, id); }
    }
  }

  lemma HasMore(rest: seq<Contributor>, c: Contributor, id: Id)
    ensures Has(rest + [c], id) <==> Has(rest, id) || c.id == id
  {
    var all := rest + [c];
    if i :| 0 <= i < |rest| && rest[i].id == id { assert all[i].id == id; }
    if i :| 0 <= i < |all| && all[i].id == id { assert i < |rest| ==> rest[i].id == id; }
    assert all[|rest|] == c;
  }

  lemma TotalUnfold(f: Floats, m: map<Id, Float>, top: Id)
    requires IsTop(m, top)
    ensures Total(f, m) == f.add(Total(f, m - {top}), m[top])
  {
    forall other | IsTop(m, other) ensures other == top { TopIsUnique(m, other, top); }
  }

  /** Adding the next in id order extends the sum. */
  lemma TotalStep(f: Floats, sorted: seq<Contributor>, i: nat)
    requires Ascends(sorted) && i < |sorted|
    ensures Total(f, Returns(sorted[..i + 1])) == f.add(Total(f, Returns(sorted[..i])), sorted[i].value)
  {
    hide Total, Returns;
    var head, c := sorted[..i], sorted[i];
    assert Distinct(head);
    ReturnsOf(head);
    ReturnsMore(head, c);
    assert sorted[..i + 1] == head + [c];
    var h := Returns(head);
    assert forall id :: id in h ==> id < c.id;
    var m := h[c.id := c.value];
    assert IsTop(m, c.id);
    assert m - {c.id} == h;
    TotalUnfold(f, m, c.id);
  }

  lemma NothingTotalled(f: Floats)
    ensures Total(f, Returns([])) == f.zero
  {
  }

  /** A running total over a list, from its head. */
  function RunningTotal(f: Floats, total: Float, sorted: seq<Contributor>): Float
    decreases |sorted|
  {
    if sorted == [] then total else RunningTotal(f, f.add(total, sorted[0].value), sorted[1..])
  }

  lemma {:induction false} RunningLast(f: Floats, total: Float, sorted: seq<Contributor>, last: Contributor)
    ensures RunningTotal(f, total, sorted + [last]) == f.add(RunningTotal(f, total, sorted), last.value)
    decreases |sorted|
  {
    if sorted == [] {
      assert [last][1..] == [];
    } else {
      assert (sorted + [last])[1..] == sorted[1..] + [last] && (sorted + [last])[0] == sorted[0];
      RunningLast(f, f.add(total, sorted[0].value), sorted[1..], last);
    }
  }

  /** The mean of returns listed by ascending identifier adds them from the first on, starting
      from zero, and divides once by their number; below the minimum there is none, and the
      number is stated either way. */
  lemma {:induction false} MeanInOrder(f: Floats, minimum: nat, sorted: seq<Contributor>)
    requires Ascends(sorted)
    ensures MeanOf(f, minimum, Returns(sorted))
         == CompositeValue(if |sorted| < minimum then None
            else Some(f.divide(RunningTotal(f, f.zero, sorted), |sorted|)), |sorted|)
  {
    hide Total, Returns, RunningTotal;
    ReturnsOf(sorted);
    TotalIsRunning(f, sorted);
  }

  lemma {:induction false} TotalIsRunning(f: Floats, sorted: seq<Contributor>)
    requires Ascends(sorted)
    ensures Total(f, Returns(sorted)) == RunningTotal(f, f.zero, sorted)
    decreases |sorted|
  {
    if sorted == [] {
      NothingTotalled(f);
    } else {
      var last := |sorted| - 1;
      TotalIsRunning(f, sorted[..last]);
      RunningLast(f, f.zero, sorted[..last], sorted[last]);
      assert sorted[..last] + [sorted[last]] == sorted && sorted[..last + 1] == sorted;
      hide Total, Returns, RunningTotal;
      TotalStep(f, sorted, last);
    }
  }

  // ---- Sorting the copy -----------------------------------------------------------------------

  function Inserted(sorted: seq<Contributor>, c: Contributor): seq<Contributor> {
    if sorted == [] || sorted[|sorted| - 1].id < c.id then sorted + [c]
    else Inserted(sorted[..|sorted| - 1], c) + [sorted[|sorted| - 1]]
  }

  /** The library's sort of the copied slice, by id. */
  function ById(contributors: seq<Contributor>): seq<Contributor> {
    if contributors == [] then []
    else Inserted(ById(contributors[..|contributors| - 1]), contributors[|contributors| - 1])
  }

  lemma {:induction false} InsertedIn(sorted: seq<Contributor>, c: Contributor)
    requires Ascends(sorted) && forall x :: x in sorted ==> x.id != c.id
    ensures Ascends(Inserted(sorted, c)) && |Inserted(sorted, c)| == |sorted| + 1
    ensures Returns(Inserted(sorted, c)) == Returns(sorted)[c.id := c.value]
    ensures forall x :: x in Inserted(sorted, c) <==> x in sorted || x == c
  {
    hide Ascends, Returns;
    if sorted == [] {
      ReturnsMore(sorted, c);
      AscendsMore(sorted, c);
    } else {
      var rest, last := sorted[..|sorted| - 1], sorted[|sorted| - 1];
      AscendsRest(sorted);
      assert last in sorted;
      assert forall x :: x in sorted <==> x in rest || x == last;
      if last.id < c.id {
        ReturnsMore(sorted, c);
        AscendsMore(sorted, c);
      } else {
        InsertedIn(rest, c);
        AscendsMore(Inserted(rest, c), last);
        ReturnsMore(Inserted(rest, c), last);
        ReturnsMore(rest, last);
        assert sorted == rest + [last];
      }
    }
  }

  lemma AscendsRest(sorted: seq<Contributor>)
    requires Ascends(sorted) && sorted != []
    ensures var last := |sorted| - 1;
            Ascends(sorted[..last]) && forall x :: x in sorted[..last] ==> x.id < sorted[last].id
  {
    var last := |sorted| - 1;
    forall x | x in sorted[..last] ensures x.id < sorted[last].id {
      var i :| 0 <= i < last && sorted[i] == x;
    }
  }

  lemma AscendsMore(sorted: seq<Contributor>, last: Contributor)
    requires Ascends(sorted) && forall x :: x in sorted ==> x.id < last.id
    ensures Ascends(sorted + [last])
  {
    assert forall i :: 0 <= i < |sorted| ==> sorted[i] in sorted;
  }

  lemma {:induction false} SortedIn(contributors: seq<Contributor>)
    requires Distinct(contributors)
    ensures Ascends(ById(contributors)) && |ById(contributors)| == |contributors|
    ensures Returns(ById(contributors)) == Returns(contributors)
    ensures forall x :: x in ById(contributors) <==> x in contributors
  {
    if contributors != [] {
      var rest, last := contributors[..|contributors| - 1], contributors[|contributors| - 1];
      SortedIn(rest);
      InsertedIn(ById(rest), last);
      assert forall x :: x in contributors <==> x in rest || x == last;
    }
  }

  lemma {:induction false} ReturnsIgnoreOrder(x: seq<Contributor>, y: seq<Contributor>)
    requires Distinct(x) && Distinct(y) && multiset(x) == multiset(y)
    ensures Returns(x) == Returns(y)
  {
    ReturnsOf(x);
    ReturnsOf(y);
    forall c ensures c in x <==> c in y {
      assert c in x <==> c in multiset(x);
      assert c in y <==> c in multiset(y);
    }
    forall id | id in Returns(x) ensures id in Returns(y) && Returns(y)[id] == Returns(x)[id] {
      var i :| 0 <= i < |x| && x[i].id == id;
      assert x[i] in y;
      var j :| 0 <= j < |y| && y[j] == x[i];
      assert y[j].id == id;
    }
    forall id | id in Returns(y) ensures id in Returns(x) {
      var i :| 0 <= i < |y| && y[i].id == id;
      assert y[i] in x;
      var j :| 0 <= j < |x| && x[j] == y[i];
      assert x[j].id == id;
    }
  }

  /** The mean of a session's contributors, in whatever order they arrived. */
  method Composite(f: Floats, contributors: seq<Contributor>, minimum: nat) returns (r: CompositeValue)
    requires Distinct(contributors)
    ensures r == MeanOf(f, minimum, Returns(contributors))
  {
    hide Total, Returns, ById;
    var sorted := ById(contributors);
    SortedIn(contributors);
    ReturnsOf(contributors);
    if |sorted| < minimum {
      return CompositeValue(None, |sorted|);
    }
    var total := f.zero;
    NothingTotalled(f);
    assert sorted[..0] == [];
    for i := 0 to |sorted|
      invariant total == Total(f, Returns(sorted[..i]))
    {
      TotalStep(f, sorted, i);
      total := f.add(total, sorted[i].value);
    }
    assert sorted[..|sorted|] == sorted;
    r := CompositeValue(Some(f.divide(total, |sorted|)), |sorted|);
  }

  /** The order the contributors arrived in does not change the composite. */
  lemma OrderDoesNotMatter(f: Floats, x: seq<Contributor>, y: seq<Contributor>, minimum: nat)
    requires Distinct(x) && Distinct(y) && multiset(x) == multiset(y)
    ensures MeanOf(f, minimum, Returns(x)) == MeanOf(f, minimum, Returns(y))
  {
    ReturnsIgnoreOrder(x, y);
  }
}

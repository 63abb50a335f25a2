/** The composite stage of a run: returns gathered session by session, then written over a range. */
module FeatureSeries {
  import opened Prelude
  import opened FeatureCalendar
  import opened FeatureHistory
  import opened CompositeMean
  import opened FeatureRuns
  import opened FeatureComposite
  import opened FeatureStore
  import opened Ordering

  /** The members loaded so far. */
  ghost function Part(universe: Universe, ids: seq<Id>): Universe {
    map id | id in universe && id in ids :: universe[id]
  }

  /** What the loop has collected: a list of returns for every session some member has a row for. */
  ghost predicate Collected(reg: Registry, part: Universe, d: Date, contributors: map<Date, seq<Contributor>>) {
    && (d in contributors <==> HasRow(reg, part, d))
    && (d in contributors ==> Distinct(contributors[d]) && Returns(contributors[d]) == Contributors(reg, part, d))
  }

  ghost predicate AllCollected(reg: Registry, part: Universe, contributors: map<Date, seq<Contributor>>) {
    forall d :: Collected(reg, part, d, contributors)
  }

  lemma PartGrows(reg: Registry, universe: Universe, ids: seq<Id>, k: nat, d: Date)
    requires k < |ids| && ids[k] in universe && ids[k] !in ids[..k]
    ensures var part, more, c :=
            Part(universe, ids[..k]), Part(universe, ids[..k + 1]), ContributionAt(reg, universe[ids[k]], d);
            && ids[k] !in Contributors(reg, part, d)
            && (HasRow(reg, more, d) <==> HasRow(reg, part, d) || c.Counts())
            && Contributors(reg, more, d)
               == if c.Contributes? then Contributors(reg, part, d)[ids[k] := c.value] else Contributors(reg, part, d)
  {
    hide ContributionAt;
    assert ids[..k + 1] == ids[..k] + [ids[k]];
    var part, more, mine := Part(universe, ids[..k]), Part(universe, ids[..k + 1]), universe[ids[k]];
    assert more == part[ids[k] := mine];
    assert forall id :: id in more <==> id in part || id == ids[k];
    assert forall id :: id in part ==> more[id] == part[id];
    assert more[ids[k]] == mine;
    RowsUnite(reg, part, more, ids[k], d);
    var was, now := Contributors(reg, part, d), Contributors(reg, more, d);
    assert forall id :: id in now <==> id in was || (id == ids[k] && ContributionAt(reg, mine, d).Contributes?);
  }

  lemma RowsUnite(reg: Registry, part: Universe, more: Universe, id: Id, d: Date)
    requires forall m :: m in more <==> m in part || m == id
    requires id in more && id !in part && forall m :: m in part ==> more[m] == part[m]
    ensures HasRow(reg, more, d) <==> HasRow(reg, part, d) || ContributionAt(reg, more[id], d).Counts()
  {
    hide ContributionAt;
    if HasRow(reg, part, d) {
      var m :| CountsFor(reg, part, m, d);
      assert CountsFor(reg, more, m, d);
    }
    if HasRow(reg, more, d) {
      var m :| CountsFor(reg, more, m, d);
      assert m != id ==> CountsFor(reg, part, m, d);
    }
    assert ContributionAt(reg, more[id], d).Counts() ==> CountsFor(reg, more, id, d);
  }

  lemma NoRowNoContributors(reg: Registry, part: Universe, d: Date)
    requires !HasRow(reg, part, d)
    ensures Contributors(reg, part, d) == map[]
  {
    hide ContributionAt;
    forall id ensures id !in Contributors(reg, part, d) {
      assert !CountsFor(reg, part, id, d);
    }
  }

  /** What one member adds at its i-th session. */
  method ContributionOf(reg: Registry, h: MemberHistory, i: nat) returns (c: Contribution)
    requires h.Valid() && h.arithmetic == reg.arithmetic && 0 < i < |StoredOf(h).Dates()|
    modifies h
    ensures h.Valid()
    ensures c == ContributionAt(reg, StoredOf(h), StoredOf(h).Dates()[i])
  {
    hide Indexes, Aligned, PlainWindow, AdjustBar, Trading;
    IndexedDates(h.raw, h.bars, h.calendar);
    var session := h.raw.dates[i];
    SlotStored(h.raw, h.bars, h.calendar, i);
    TradingAscends(h.calendar);
    PositionIs(h.raw.dates, i);
    if h.raw.slots[i].None? {
      return NotTrading;
    }
    var view := h.AdjustedAt(session);
    ghost var basis := Adjusted(h.arithmetic, h.bars, h.splits, session);
    IndexedDates(view, basis, h.calendar);
    IndexIsPosition(view, basis, h.calendar, session);
    var window := Window(view, basis, h.calendar, session, 2);
    PairHasTwo(Slots(reg, StoredOf(h), true, session), i);
    match window {
      case Satisfied(bars) =>
        var value := reg.pairReturn(bars[0].close, bars[1].close);
        c := if value.None? then Undefined else Contributes(value.value);
      case Absent(_) => c := Silent;
      case NoObservation => c := Silent;
    }
  }

  lemma PairHasTwo(slots: seq<Option<Bar>>, e: nat)
    requires e < |slots|
    ensures var w := PlainWindow(slots, e, 2); w.Satisfied? ==> |w.bars| == 2
  {
  }

  /** The whole composite series: every member's returns gathered by session, then one mean a
      session; nothing when no composite is published. */
  method ComputeComposite(reg: Registry, ids: seq<Id>, histories: seq<MemberHistory>, ghost universe: Universe)
    returns (series: Series)
    requires |ids| == |histories|
    requires forall i, j :: 0 <= i < j < |ids| ==> ids[i] != ids[j]
    requires universe.Keys == set i | 0 <= i < |ids| :: ids[i]
    requires forall i :: 0 <= i < |ids| ==>
               histories[i].Valid() && histories[i].arithmetic == reg.arithmetic
                 && universe[ids[i]] == StoredOf(histories[i])
    modifies histories
    ensures forall i :: 0 <= i < |ids| ==> histories[i].Valid()
    ensures series == SeriesOf(reg, universe)
  {
    hide ContributionAt, Trading, Indexes, HasRow, Contributors, Part, MemberHistory.Valid;
    if !reg.hasComposite {
      return map[];
    }
    var contributors: map<Date, seq<Contributor>> := map[];
    PartNone(reg, universe);
    assert ids[..0] == [];
    for k := 0 to |ids|
      invariant forall i :: 0 <= i < |ids| ==> histories[i].Valid()
      invariant AllCollected(reg, Part(universe, ids[..k]), contributors)
    {
      contributors := CollectMember(reg, ids, ids[k], histories[k], k, universe, contributors);
    }
    assert ids[..|ids|] == ids;
    PartAll(universe, ids);
    series := MeanBySession(reg, universe, contributors);
  }

  /** One mean a session, in date order. */
  method MeanBySession(reg: Registry, ghost universe: Universe, contributors: map<Date, seq<Contributor>>)
    returns (series: Series)
    requires reg.hasComposite && AllCollected(reg, universe, contributors)
    ensures series == SeriesOf(reg, universe)
  {
    hide ContributionAt, HasRow, Contributors, Returns, Distinct, MeanOf, SeriesOf, AllCollected, Sorted;
    series := map[];
    var sessions := ElementsInOrder(contributors.Keys);
    assert forall d :: d in sessions <==> d in contributors;
    for j := 0 to |sessions|
      invariant series.Keys <= contributors.Keys
      invariant forall d :: d in series ==> series[d] == MeanOf(reg.floats, reg.minimum, Contributors(reg, universe, d))
      invariant forall k :: 0 <= k < j ==> sessions[k] in series
    {
      ListedAt(reg, universe, contributors, sessions[j]);
      var value := Composite(reg.floats, contributors[sessions[j]], reg.minimum);
      series := series[sessions[j] := value];
    }
    forall d | d in contributors ensures d in series {
      var k :| 0 <= k < |sessions| && sessions[k] == d;
    }
    assert series.Keys == contributors.Keys;
    SeriesOfCollected(reg, universe, contributors, series);
  }

  lemma ListedAt(reg: Registry, universe: Universe, contributors: map<Date, seq<Contributor>>, d: Date)
    requires AllCollected(reg, universe, contributors) && d in contributors
    ensures Distinct(contributors[d]) && Returns(contributors[d]) == Contributors(reg, universe, d)
  {
    hide Distinct, Returns, Contributors, HasRow;
    assert Collected(reg, universe, d, contributors);
  }

  lemma SeriesOfCollected(reg: Registry, universe: Universe, contributors: map<Date, seq<Contributor>>, series: Series)
    requires reg.hasComposite && AllCollected(reg, universe, contributors) && series.Keys == contributors.Keys
    requires forall d :: d in series ==> series[d] == MeanOf(reg.floats, reg.minimum, Contributors(reg, universe, d))
    ensures series == SeriesOf(reg, universe)
  {
    hide ContributionAt, HasRow, Contributors, Returns, Distinct, MeanOf, Sessions;
    forall d ensures d in series <==> d in SeriesOf(reg, universe) {
      assert Collected(reg, universe, d, contributors);
      assert d in series <==> d in series.Keys;
      RowIsSession(reg, universe, d);
    }
  }

  lemma PartNone(reg: Registry, universe: Universe)
    ensures forall d :: !HasRow(reg, Part(universe, []), d)
  {
    hide ContributionAt;
  }

  lemma PartAll(universe: Universe, ids: seq<Id>)
    requires universe.Keys == set i | 0 <= i < |ids| :: ids[i]
    ensures Part(universe, ids) == universe
  {
  }

  /** The earliest session has none before it, and another date is none, so nothing is collected there. */
  lemma FirstSessionIsSilent(reg: Registry, inst: Stored)
    requires Ascending(inst.calendar)
    ensures inst.Dates() != [] ==> ContributionAt(reg, inst, inst.Dates()[0]) == NotTrading
    ensures forall d :: d !in inst.Dates() ==> ContributionAt(reg, inst, d) == NotTrading
  {
    hide Trading, Slots, PlainWindow, BarOn;
  }

  /** One member's turn: its sessions from the second on. */
  method CollectMember(reg: Registry, ghost ids: seq<Id>, id: Id, h: MemberHistory, ghost k: nat,
                       ghost universe: Universe,
                       given: map<Date, seq<Contributor>>) returns (contributors: map<Date, seq<Contributor>>)
    requires k < |ids| && id == ids[k] && id in universe && id !in ids[..k] && universe[id] == StoredOf(h)
    requires h.Valid() && h.arithmetic == reg.arithmetic
    requires AllCollected(reg, Part(universe, ids[..k]), given)
    modifies h
    ensures h.Valid()
    ensures AllCollected(reg, Part(universe, ids[..k + 1]), contributors)
  {
    hide ContributionAt, Trading, Indexes, HasRow, Contributors, Part, AdjustBar, Collected;
    contributors := given;
    IndexedDates(h.raw, h.bars, h.calendar);
    TradingAscends(h.calendar);
    var sessions := h.raw.dates;
    ghost var part, more := Part(universe, ids[..k]), Part(universe, ids[..k + 1]);
    FirstSessionIsSilent(reg, StoredOf(h));
    if |sessions| > 0 {
      PartGrows(reg, universe, ids, k, sessions[0]);
      SameCollected(reg, part, more, sessions[0], contributors);
    }
    var i := 1;
    while i < |sessions|
      invariant 1 <= i
      invariant h.Valid()
      invariant CollectedThrough(reg, part, more, sessions, i, contributors)
    {
      var c := ContributionOf(reg, h, i);
      PartGrows(reg, universe, ids, k, sessions[i]);
      GatherCollects(reg, part, more, sessions, i, id, c, contributors);
      contributors := Gather(contributors, sessions[i], id, c);
      i := i + 1;
    }
    forall d ensures Collected(reg, more, d, contributors) {
      if d in sessions {
        var j := Position(sessions, d);
        assert sessions[j] == d;
      } else {
        PartGrows(reg, universe, ids, k, d);
        SameCollected(reg, part, more, d, contributors);
      }
    }
  }

  lemma SameCollected(reg: Registry, part: Universe, more: Universe, d: Date, contributors: map<Date, seq<Contributor>>)
    requires HasRow(reg, part, d) <==> HasRow(reg, more, d)
    requires Contributors(reg, part, d) == Contributors(reg, more, d)
    ensures Collected(reg, part, d, contributors) <==> Collected(reg, more, d, contributors)
  {
    hide HasRow, Contributors;
  }

  /** Sessions before i have this member's return; the rest, and any other date, do not yet. */
  ghost predicate CollectedThrough(reg: Registry, part: Universe, more: Universe, sessions: seq<Date>, i: nat,
                                   contributors: map<Date, seq<Contributor>>) {
    && (forall j :: 0 <= j < |sessions| ==> Collected(reg, if j < i then more else part, sessions[j], contributors))
    && (forall d :: d !in sessions ==> Collected(reg, part, d, contributors))
  }

  lemma GatherCollects(reg: Registry, part: Universe, more: Universe, sessions: seq<Date>, i: nat, id: Id,
                       c: Contribution, contributors: map<Date, seq<Contributor>>)
    requires AscendingDates(sessions) && i < |sessions| && CollectedThrough(reg, part, more, sessions, i, contributors)
    requires id !in Contributors(reg, part, sessions[i])
    requires HasRow(reg, more, sessions[i]) <==> HasRow(reg, part, sessions[i]) || c.Counts()
    requires Contributors(reg, more, sessions[i])
          == if c.Contributes? then Contributors(reg, part, sessions[i])[id := c.value]
             else Contributors(reg, part, sessions[i])
    ensures CollectedThrough(reg, part, more, sessions, i + 1, Gather(contributors, sessions[i], id, c))
  {
    hide HasRow, Contributors, Returns, Distinct;
    var d := sessions[i];
    var next := Gather(contributors, d, id, c);
    assert Collected(reg, part, d, contributors);
    if d !in contributors { NoRowNoContributors(reg, part, d); }
    var listed := if d in contributors then contributors[d] else [];
    NobodyYet();
    if c.Contributes? { GatherAdds(listed, Contributor(id, c.value)); }
    assert Collected(reg, more, d, next);
    hide Collected;
    forall j | 0 <= j < |sessions| && j != i
      ensures Collected(reg, if j < i + 1 then more else part, sessions[j], next)
    {
      assert Collected(reg, if j < i then more else part, sessions[j], contributors);
      OtherDatesStay(reg, if j < i then more else part, contributors, next, sessions[j]);
    }
    forall x | x !in sessions ensures Collected(reg, part, x, next) {
      assert Collected(reg, part, x, contributors);
      OtherDatesStay(reg, part, contributors, next, x);
    }
  }

  lemma NobodyYet()
    ensures Distinct([]) && Returns([]) == map[]
  {
  }

  lemma OtherDatesStay(reg: Registry, universe: Universe, contributors: map<Date, seq<Contributor>>,
                       next: map<Date, seq<Contributor>>, x: Date)
    requires Collected(reg, universe, x, contributors)
    requires (x in next <==> x in contributors) && (x in next ==> next[x] == contributors[x])
    ensures Collected(reg, universe, x, next)
  {
    hide HasRow, Contributors, Returns, Distinct;
  }

  /** One more contributor is one more return. */
  lemma GatherAdds(contributors: seq<Contributor>, c: Contributor)
    requires Distinct(contributors) && c.id !in Returns(contributors)
    ensures Distinct(contributors + [c]) && Returns(contributors + [c]) == Returns(contributors)[c.id := c.value]
  {
    hide Returns;
    ReturnsOf(contributors);
    ReturnsMore(contributors, c);
    hide Has;
    forall j | 0 <= j < |contributors|
      ensures contributors[j].id != c.id
    {
      assert contributors[j].id in Returns(contributors);
    }
  }

  /** One return appended to its session's list, or the session noted without one. */
  function Gather(contributors: map<Date, seq<Contributor>>, session: Date, id: Id,
                  c: Contribution): map<Date, seq<Contributor>> {
    match c
    case NotTrading => contributors
    case Undefined => contributors
    case Silent => if session in contributors then contributors else contributors[session := []]
    case Contributes(value) =>
      contributors[session := (if session in contributors then contributors[session] else [])
        + [Contributor(id, value)]]
  }

  /** The stored composite of one universe. */
  class CompositeStore {
    var rows: Series

    /** Replaces the composite over a range. */
    method WriteComposite(from: Date, to: Date, written: Series)
      requires forall d :: d in written ==> from <= d <= to
      modifies this
      ensures rows == SeriesWritten(old(rows), from, to, written)
    {
      rows := (map d | d in rows && !(from <= d <= to) :: rows[d]) + written;
    }

    /** The stage of a full run: the whole series over its own sessions. */
    method StageWhole(series: Series)
      modifies this
      ensures StagedWhole(old(rows), series, rows)
    {
      hide Sorted, IsLeastKey, IsGreatestKey, SeriesWritten;
      var sessions := ElementsInOrder(series.Keys);
      if |sessions| == 0 {
        NoSessions(series);
        return;
      }
      KeyBounds(series, sessions);
      KeysWithin(series, sessions[0], sessions[|sessions| - 1]);
      WriteComposite(sessions[0], sessions[|sessions| - 1], series);
    }

    /** The stage of an incremental run: clip the range to the series' own sessions, keep its
        rows there, and write them. */
    method Stage(series: Series, from: Date, to: Date)
      modifies this
      ensures CompositeStage(old(rows), series, from, to, rows)
    {
      hide Sorted, IsLeastKey, IsGreatestKey, CompositeStage, SeriesWritten;
      var sessions := ElementsInOrder(series.Keys);
      ghost var store := rows;
      if |sessions| == 0 {
        NoSessions(series);
        StageOfNone(store, from, to);
        return;
      }
      var least, greatest := sessions[0], sessions[|sessions| - 1];
      KeyBounds(series, sessions);
      var first, last := Greater(least, from), Lesser(greatest, to);
      var kept := map d | d in series && first <= d <= last :: series[d];
      KeptIsEnough(store, first, last, series, kept);
      if first <= last {
        WriteComposite(first, last, kept);
      }
      StageOf(store, series, from, to, least, greatest, rows);
    }
  }

  /** The composite stage of a full run: everything from the new series' first session to its last. */
  ghost predicate StagedWhole(store: Series, rows: Series, result: Series) {
    if rows == map[] then result == store
    else exists least, greatest ::
           IsLeastKey(rows, least) && IsGreatestKey(rows, greatest)
             && result == SeriesWritten(store, least, greatest, rows)
  }

  lemma KeysWithin(series: Series, least: Date, greatest: Date)
    requires IsLeastKey(series, least) && IsGreatestKey(series, greatest)
    ensures series != map[] && forall d :: d in series ==> least <= d <= greatest
  {
  }

  lemma StageOfNone(store: Series, from: Date, to: Date)
    ensures CompositeStage(store, map[], from, to, store)
  {
  }

  lemma KeptIsEnough(store: Series, first: Date, last: Date, series: Series, kept: Series)
    requires kept == map d | d in series && first <= d <= last :: series[d]
    ensures SeriesWritten(store, first, last, kept) == SeriesWritten(store, first, last, series)
    ensures first > last ==> SeriesWritten(store, first, last, series) == store
  {
  }

  lemma StageOf(store: Series, series: Series, from: Date, to: Date, least: Date, greatest: Date, result: Series)
    requires IsLeastKey(series, least) && IsGreatestKey(series, greatest)
    requires result == SeriesWritten(store, Greater(least, from), Lesser(greatest, to), series)
    ensures CompositeStage(store, series, from, to, result)
  {
    hide SeriesWritten;
    assert series != map[];
  }

  lemma NoSessions(series: Series)
    requires Sorted(series.Keys) == []
    ensures series == map[]
  {
    assert forall d :: d in series ==> d in Sorted(series.Keys);
  }

  lemma KeyBounds(series: Series, sessions: seq<Date>)
    requires sessions == Sorted(series.Keys) && sessions != []
    ensures IsLeastKey(series, sessions[0]) && IsGreatestKey(series, sessions[|sessions| - 1])
  {
    assert sessions[0] in sessions && sessions[|sessions| - 1] in sessions;
    forall x | x in series ensures sessions[0] <= x <= sessions[|sessions| - 1] {
      assert x in sessions;
    }
  }
}

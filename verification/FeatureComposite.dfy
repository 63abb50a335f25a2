/** The universe composite: what it is at a session, what an incremental run rewrites of
    it, and when its readers' scopes reach far enough. */
module FeatureComposite {
  import opened Prelude
  import opened FeatureCalendar
  import opened FeatureHistory
  import opened FeatureRuns
  import opened CompositeMean

  /** Every member's stored history, each on its own exchange's calendar. */
  type Universe = map<Id, Stored>

  ghost predicate Ordinary(universe: Universe) {
    forall id :: id in universe ==> Ascending(universe[id].calendar) && BarsAscending(universe[id].bars)
  }

  ghost function Sessions(universe: Universe): set<Date> {
    set id, d | id in universe && d in universe[id].Dates() :: d
  }

  // ---- The composite at a session -------------------------------------------------------------

  /** What one member adds at a session: nothing, its session without a return, or a return. */
  datatype Contribution = NotTrading | Undefined | Silent | Contributes(value: Float)
  {
    predicate Counts() {
      Silent? || Contributes?
    }
  }

  /** The two-session window on the basis known at the session decides. */
  ghost function ContributionAt(reg: Registry, inst: Stored, d: Date): Contribution {
    var dates := inst.Dates();
    var e := Position(dates, d);
    if e == |dates| || e == 0 || BarOn(inst.bars, d).None? then NotTrading
    else
      match PlainWindow(Slots(reg, inst, true, d), e, 2)
      case Absent(_) => Silent
      case NoObservation => Silent
      case Satisfied(bars) =>
        match reg.pairReturn(bars[0].close, bars[1].close)
        case None => Undefined
        case Some(value) => Contributes(value)
  }

  ghost function Contributors(reg: Registry, universe: Universe, d: Date): map<Id, Float> {
    map id | id in universe && ContributionAt(reg, universe[id], d).Contributes? ::
      ContributionAt(reg, universe[id], d).value
  }

  ghost predicate CountsFor(reg: Registry, universe: Universe, id: Id, d: Date) {
    id in universe && ContributionAt(reg, universe[id], d).Counts()
  }

  ghost predicate HasRow(reg: Registry, universe: Universe, d: Date) {
    exists id :: CountsFor(reg, universe, id, d)
  }

  /** The whole series: a value at every session some member has a row for, and none at all
      without a composite definition. */
  ghost function SeriesOf(reg: Registry, universe: Universe): Series {
    if !reg.hasComposite then map[]
    else map d | d in Sessions(universe) && HasRow(reg, universe, d) ::
         MeanOf(reg.floats, reg.minimum, Contributors(reg, universe, d))
  }

  // ---- What is stored of it -------------------------------------------------------------------

  /** Rewrites the rows of a range: those inside go, and the new ones inside come. */
  ghost function SeriesWritten(store: Series, from: Date, to: Date, rows: Series): Series {
    (map d | d in store && !(from <= d <= to) :: store[d]) + (map d | d in rows && from <= d <= to :: rows[d])
  }

  ghost predicate IsLeastKey(rows: Series, d: Date) {
    d in rows && forall x :: x in rows ==> d <= x
  }

  ghost predicate IsGreatestKey(rows: Series, d: Date) {
    d in rows && forall x :: x in rows ==> x <= d
  }

  /** The composite stage of an incremental run: the rewritten range is clipped to the
      sessions the series has, and a series with no session at all writes nothing. */
  ghost predicate CompositeStage(store: Series, rows: Series, from: Date, to: Date, result: Series) {
    if rows == map[] then result == store
    else exists least, greatest ::
           IsLeastKey(rows, least) && IsGreatestKey(rows, greatest)
           && result == SeriesWritten(store, Greater(least, from), Lesser(greatest, to), rows)
  }

  // ---- An import over the universe ------------------------------------------------------------

  /** What an import touched of a member. */
  ghost function TouchedOf(touched: map<Id, set<Date>>, id: Id): set<Date> {
    if id in touched then touched[id] else {}
  }

  /** An import run: each touched member is updated, on dates of its own, and the others are
      left alone. It may have touched instruments outside the universe. */
  ghost predicate Imported(before: Universe, after: Universe, touched: map<Id, set<Date>>) {
    && before.Keys == after.Keys && Ordinary(after)
    && forall id :: id in after ==>
         if id in touched then Updated(before[id], after[id], touched[id]) else before[id] == after[id]
  }

  /** Every touched date of a member lies in a range. */
  ghost predicate Within(after: Universe, touched: map<Id, set<Date>>, earliest: Date, latest: Date) {
    forall id, t :: id in after && id in touched && t in touched[id] ==> earliest <= t <= latest
  }

  /** A session of a member that was touched, or the one after it; never its first, which has no
      session before it to return from. */
  ghost predicate NearTouched(inst: Stored, touched: set<Date>, d: Date) {
    var e := Position(inst.Dates(), d);
    0 < e < |inst.Dates()| && (d in touched || inst.Dates()[e - 1] in touched)
  }

  /** The dates at which the composite may change. */
  ghost predicate MayChange(after: Universe, touched: map<Id, set<Date>>, d: Date) {
    exists id :: id in after && id in touched && NearTouched(after[id], touched[id], d)
  }

  lemma ImportedMember(before: Universe, after: Universe, touched: map<Id, set<Date>>, id: Id)
    requires Imported(before, after, touched) && id in after
    ensures id in before && Updated(before[id], after[id], TouchedOf(touched, id))
    ensures before[id].Dates() == after[id].Dates()
  {
    if id !in touched { UnchangedIsUpdated(after[id]); }
  }

  lemma UnchangedIsUpdated(inst: Stored)
    requires Ascending(inst.calendar) && BarsAscending(inst.bars)
    ensures Updated(inst, inst, {})
  {
  }

  /** Away from the touched sessions a member adds what it did. */
  lemma ContributionKept(reg: Registry, before: Stored, after: Stored, touched: set<Date>, d: Date)
    requires Updated(before, after, touched) && !NearTouched(after, touched, d)
    ensures ContributionAt(reg, before, d) == ContributionAt(reg, after, d)
  {
    hide BarOn, Slots, PlainWindow, Updated;
    var dates := after.Dates();
    UpdatedBasics(before, after, touched, d);
    if d in dates {
      var e := Position(dates, d);
      if e > 0 && BarOn(after.bars, d).Some? { PairWindowAlike(reg, before, after, touched, e); }
    }
  }

  lemma UpdatedBasics(before: Stored, after: Stored, touched: set<Date>, d: Date)
    requires Updated(before, after, touched)
    ensures before.Dates() == after.Dates() && (d !in touched ==> BarOn(before.bars, d) == BarOn(after.bars, d))
  {
  }

  /** Two windows with the same two slots are the same, or absent for whatever reason. */
  lemma PairWindowAlike(reg: Registry, before: Stored, after: Stored, touched: set<Date>, e: nat)
    requires Updated(before, after, touched) && before.Dates() == after.Dates() && 0 < e < |after.Dates()|
    requires after.Dates()[e] !in touched && after.Dates()[e - 1] !in touched
             && BarOn(after.bars, after.Dates()[e]).Some?
    ensures var d := after.Dates()[e];
            var was, now := PlainWindow(Slots(reg, before, true, d), e, 2),
              PlainWindow(Slots(reg, after, true, d), e, 2);
            was == now || (was.Absent? && now.Absent?)
  {
    hide BarOn, Slots, Updated, AdjustBar;
    var d := after.Dates()[e];
    SlotKept(reg, before, after, touched, true, d, e);
    SlotKept(reg, before, after, touched, true, d, e - 1);
    SlotIs(reg, after, true, d, e);
    var was, now := Slots(reg, before, true, d), Slots(reg, after, true, d);
    if now[e - 1].Some? {
      assert !NothingThrough(was, e - 1) && !NothingThrough(now, e - 1);
      assert Full(was, e - 1, e + 1) && Full(now, e - 1, e + 1);
      assert Values(was, e - 1, e + 1) == Values(now, e - 1, e + 1);
    } else {
      assert was[e - 1].None?;
    }
  }

  /** The composite changes only at a touched session of some member and the one after it. */
  lemma SeriesChangesNearTouched(reg: Registry, before: Universe, after: Universe, touched: map<Id, set<Date>>, d: Date)
    requires Imported(before, after, touched) && !MayChange(after, touched, d)
    ensures HasRow(reg, before, d) <==> HasRow(reg, after, d)
    ensures Contributors(reg, before, d) == Contributors(reg, after, d)
    ensures d in SeriesOf(reg, before) <==> d in SeriesOf(reg, after)
    ensures SeriesAt(SeriesOf(reg, before), d) == SeriesAt(SeriesOf(reg, after), d)
  {
    hide ContributionAt, Updated, NearTouched, Stored.Dates;
    forall id | id in after ensures ContributionAt(reg, before[id], d) == ContributionAt(reg, after[id], d) {
      ImportedMember(before, after, touched, id);
      if id in touched { ContributionKept(reg, before[id], after[id], touched[id], d); }
    }
    forall id ensures CountsFor(reg, before, id, d) <==> CountsFor(reg, after, id, d) { }
    SameSessions(before, after, touched);
  }

  lemma SameSessions(before: Universe, after: Universe, touched: map<Id, set<Date>>)
    requires Imported(before, after, touched)
    ensures Sessions(before) == Sessions(after)
  {
    hide Stored.Dates, Updated;
    forall id | id in after
      ensures id in before && before[id].Dates() == after[id].Dates()
    {
      ImportedMember(before, after, touched, id);
    }
  }

  // ---- The composite's own rows ---------------------------------------------------------------

  /** A range takes in a last touched session and the session after it. */
  ghost predicate TakesLast(inst: Stored, touched: set<Date>, to: Date) {
    exists last :: last in touched && (forall t :: t in touched ==> t <= last)
                   && last in inst.Dates() && to >= ReachTo(inst.Dates(), last, 2)
  }

  ghost predicate Takes(after: Universe, touched: map<Id, set<Date>>, to: Date) {
    forall id :: id in after && id in touched ==> touched[id] == {} || TakesLast(after[id], touched[id], to)
  }

  lemma ChangesWithin(after: Universe, touched: map<Id, set<Date>>, earliest: Date, latest: Date, to: Date, d: Date)
    requires Ordinary(after) && Within(after, touched, earliest, latest) && Takes(after, touched, to)
    requires MayChange(after, touched, d)
    ensures earliest <= d <= to
  {
    hide NearTouched, TakesLast, Stored.Dates;
    var id :| id in after && id in touched && NearTouched(after[id], touched[id], d);
    var t := NearIsTaken(after[id], touched[id], to, d);
  }

  lemma NearIsTaken(inst: Stored, touched: set<Date>, to: Date, d: Date) returns (t: Date)
    requires Ascending(inst.calendar) && NearTouched(inst, touched, d)
             && (touched == {} || TakesLast(inst, touched, to))
    ensures t in touched && t <= d <= to
  {
    hide Stored.Dates, ReachTo, NearTouched;
    TradingDates(inst);
    t := NearOf(inst, touched, d);
    var last :| last in touched && (forall x :: x in touched ==> x <= last)
                && last in inst.Dates() && to >= ReachTo(inst.Dates(), last, 2);
    NextIsReached(inst.Dates(), t, last, d);
  }

  lemma NearOf(inst: Stored, touched: set<Date>, d: Date) returns (t: Date)
    requires AscendingDates(inst.Dates()) && NearTouched(inst, touched, d)
    ensures t in touched && t in inst.Dates() && d in inst.Dates() && t <= d
    ensures Position(inst.Dates(), d) <= Position(inst.Dates(), t) + 1
  {
    hide Stored.Dates;
    var dates := inst.Dates();
    var e := Position(dates, d);
    if d in touched {
      t := d;
    } else {
      t := dates[e - 1];
      PositionIs(dates, e - 1);
    }
  }

  lemma NextIsReached(dates: seq<Date>, t: Date, last: Date, d: Date)
    requires AscendingDates(dates) && t in dates && last in dates && d in dates && t <= last
    requires Position(dates, d) <= Position(dates, t) + 1
    ensures d <= ReachTo(dates, last, 2)
  {
    Ordered(dates, last, Position(dates, t));
    if d > ReachTo(dates, last, 2) {
      BeyondReach(dates, last, 2, d);
    }
  }

  /** What the rewritten composite has lost lies between two sessions it still has. */
  ghost predicate LossesInside(store: Series, rows: Series) {
    forall d :: d in store && d !in rows ==> exists x, y :: x in rows && y in rows && x <= d <= y
  }

  /** Rewriting from the earliest touched session to a reach that takes in the session after
      each member's last leaves exactly the full series over the new bars, if and only if every
      session it lost lies between two it still has: the range is clipped to the new series. */
  lemma CompositeRewriteIsFull(reg: Registry, before: Universe, after: Universe, touched: map<Id, set<Date>>,
                               earliest: Date, latest: Date, to: Date, result: Series)
    requires Imported(before, after, touched) && Within(after, touched, earliest, latest) && Takes(after, touched, to)
    requires CompositeStage(SeriesOf(reg, before), SeriesOf(reg, after), earliest, to, result)
    ensures result == SeriesOf(reg, after) <==> LossesInside(SeriesOf(reg, before), SeriesOf(reg, after))
  {
    hide SeriesOf, Imported, MayChange, LossesInside, Within, Takes, CompositeStage;
    var store, rows := SeriesOf(reg, before), SeriesOf(reg, after);
    forall d | !(earliest <= d <= to) ensures (d in store <==> d in rows) && (d in rows ==> store[d] == rows[d]) {
      AfterIsOrdinary(before, after, touched);
      if MayChange(after, touched, d) { ChangesWithin(after, touched, earliest, latest, to, d); }
      SeriesChangesNearTouched(reg, before, after, touched, d);
    }
    RewriteSeries(store, rows, earliest, to, result);
  }

  lemma AfterIsOrdinary(before: Universe, after: Universe, touched: map<Id, set<Date>>)
    requires Imported(before, after, touched)
    ensures Ordinary(after)
  {
  }

  lemma RewriteSeries(store: Series, rows: Series, from: Date, to: Date, result: Series)
    requires forall d :: !(from <= d <= to) ==> (d in store <==> d in rows) && (d in rows ==> store[d] == rows[d])
    requires CompositeStage(store, rows, from, to, result)
    ensures result == rows <==> LossesInside(store, rows)
  {
    if rows == map[] {
      if store != map[] {
        SomeKey(store);
        var d :| d in store;
        assert d !in rows;
      }
    } else {
      var least, greatest :| IsLeastKey(rows, least) && IsGreatestKey(rows, greatest)
           && result == SeriesWritten(store, Greater(least, from), Lesser(greatest, to), rows);
      WrittenCompletes(store, rows, from, to, least, greatest);
    }
  }

  lemma SomeKey(series: Series)
    ensures series == map[] || exists d :: d in series
  {
    if forall d :: d !in series { assert series == map[]; }
  }

  lemma WrittenCompletes(store: Series, rows: Series, from: Date, to: Date, least: Date, greatest: Date)
    requires IsLeastKey(rows, least) && IsGreatestKey(rows, greatest)
    requires forall d :: !(from <= d <= to) ==> (d in store <==> d in rows) && (d in rows ==> store[d] == rows[d])
    ensures SeriesWritten(store, Greater(least, from), Lesser(greatest, to), rows) == rows
            <==> LossesInside(store, rows)
  {
    var result := SeriesWritten(store, Greater(least, from), Lesser(greatest, to), rows);
    forall d | d in rows ensures d in result && result[d] == rows[d] { }
    if LossesInside(store, rows) {
      forall d | d in result ensures d in rows { }
      assert result == rows;
    } else {
      var d :| d in store && d !in rows && !(exists x, y :: x in rows && y in rows && x <= d <= y);
      assert d < least || d > greatest;
      assert d in result;
    }
  }

  // ---- An import loses no session -------------------------------------------------------------

  /** Every return asked for is defined. */
  ghost predicate ReturnsDefined(reg: Registry, universe: Universe) {
    forall id, d :: id in universe ==> ContributionAt(reg, universe[id], d) != Undefined
  }

  /** It is while closes have a property, such as being positive, that division by a split's
      ratio keeps and a first close needs for its return to be defined. */
  ghost predicate Priced(reg: Registry, universe: Universe, p: Float -> bool) {
    && (forall id, b :: id in universe && b in universe[id].bars ==> p(b.close))
    && (forall x, ratio :: p(x) && !reg.arithmetic.isZero(ratio) ==> p(reg.arithmetic.divide(x, ratio)))
    && (forall x, y :: p(x) ==> reg.pairReturn(x, y).Some?)
  }

  lemma PricedReturns(reg: Registry, universe: Universe, p: Float -> bool)
    requires Priced(reg, universe, p)
    ensures ReturnsDefined(reg, universe)
  {
    hide ContributionAt;
    forall id, d | id in universe ensures ContributionAt(reg, universe[id], d) != Undefined {
      PricedReturn(reg, universe[id], d, p);
    }
  }

  lemma PricedReturn(reg: Registry, inst: Stored, d: Date, p: Float -> bool)
    requires forall b :: b in inst.bars ==> p(b.close)
    requires forall x, ratio :: p(x) && !reg.arithmetic.isZero(ratio) ==> p(reg.arithmetic.divide(x, ratio))
    requires forall x, y :: p(x) ==> reg.pairReturn(x, y).Some?
    ensures ContributionAt(reg, inst, d) != Undefined
  {
    hide BarOn, Slots, AdjustBar, Stored.Dates;
    var dates := inst.Dates();
    var e := Position(dates, d);
    if 0 < e < |dates| {
      SlotIs(reg, inst, true, d, e - 1);
      var stored := BarOn(inst.bars, dates[e - 1]);
      if stored.Some? {
        BarOnIsStored(inst.bars, dates[e - 1]);
        AdjustedKeeps(reg.arithmetic, stored.value, inst.splits, d, p);
      }
    }
  }

  lemma {:induction false} BarOnIsStored(bars: seq<Bar>, d: Date)
    ensures BarOn(bars, d).Some? ==> BarOn(bars, d).value in bars
    decreases |bars|
  {
    if bars != [] { BarOnIsStored(bars[..|bars| - 1], d); }
  }

  lemma {:induction false} AdjustedKeeps(a: Arithmetic, b: Bar, splits: seq<Split>, asOf: Date, p: Float -> bool)
    requires p(b.close) && forall x, ratio :: p(x) && !a.isZero(ratio) ==> p(a.divide(x, ratio))
    ensures p(AdjustBar(a, b, splits, asOf).close)
    decreases |splits|
  {
    if splits != [] { AdjustedKeeps(a, b, splits[..|splits| - 1], asOf, p); }
  }

  /** A session the composite had, it still has: no bar is removed, so who had a row there has one. */
  lemma NoSessionIsLost(reg: Registry, before: Universe, after: Universe, touched: map<Id, set<Date>>)
    requires Imported(before, after, touched) && ReturnsDefined(reg, after)
    ensures SeriesOf(reg, before).Keys <= SeriesOf(reg, after).Keys
    ensures LossesInside(SeriesOf(reg, before), SeriesOf(reg, after))
  {
    hide ContributionAt, Stored.Dates, Updated;
    forall d | d in SeriesOf(reg, before) ensures d in SeriesOf(reg, after) {
      var id :| CountsFor(reg, before, id, d);
      ImportedMember(before, after, touched, id);
      StillTrades(reg, before[id], after[id], TouchedOf(touched, id), d);
      assert CountsFor(reg, after, id, d);
      RowIsSession(reg, after, d);
    }
  }

  lemma StillTrades(reg: Registry, before: Stored, after: Stored, touched: set<Date>, d: Date)
    requires Updated(before, after, touched) && ContributionAt(reg, before, d) != NotTrading
    ensures ContributionAt(reg, after, d) != NotTrading
  {
    hide BarOn, Slots, PlainWindow;
  }

  lemma RowIsSession(reg: Registry, universe: Universe, d: Date)
    ensures HasRow(reg, universe, d) ==> d in Sessions(universe)
  {
    hide Trading, Slots, PlainWindow, BarOn;
    if id :| CountsFor(reg, universe, id, d) {
      assert d in universe[id].Dates();
    }
  }

  // ---- The readers' scopes --------------------------------------------------------------------

  function Users(reg: Registry): set<Definition> {
    set definition | definition in reg.active && definition.usesComposite
  }

  ghost predicate UsersWindow(reg: Registry, w: nat) {
    (forall definition :: definition in Users(reg) ==> definition.window <= w) && (Users(reg) != {} ==> w >= 1)
  }

  ghost predicate IsLongest(definitions: set<Definition>, longest: nat) {
    && (forall definition :: definition in definitions ==> definition.window <= longest)
    && (longest == 0 || exists definition :: definition in definitions && definition.window == longest)
  }

  lemma UsersWindowIsLongest(reg: Registry, wMax: nat, w: nat)
    requires IsLongest(Users(reg), w) && Windows(reg, wMax)
    ensures UsersWindow(reg, w)
  {
    forall definition | definition in Users(reg) ensures w >= 1 { assert definition in reg.active; }
    if Users(reg) != {} { SomeDefinition(Users(reg)); }
  }

  lemma SomeDefinition(definitions: set<Definition>)
    ensures definitions == {} || exists d :: d in definitions
  {
    if forall d :: d !in definitions { assert definitions == {}; }
  }

  /** Any other member's scope: the composite's readers, over the reach of the longest of their windows. */
  function OtherScope(reg: Registry, inst: Stored, earliest: Date, latest: Date, usersWindow: nat): Scope
    requires inst.bars != []
  {
    Scope(Greater(earliest, inst.bars[0].date),
          Lesser(ReachTo(inst.Dates(), latest, usersWindow), inst.bars[|inst.bars| - 1].date), Users(reg), false)
  }

  /** Outside a scope, no reader's satisfied window reads the composite where it may change. */
  ghost predicate ReadersCovered(reg: Registry, after: Universe, touched: map<Id, set<Date>>, inst: Stored, sc: Scope) {
    forall definition, d :: definition in Users(reg) && d in inst.Dates() && inst.Trades(d)
                            && !InScope((definition, d), sc.from, sc.to, sc.Only())
                            && WindowAt(reg, inst, definition, d).Satisfied? ==>
      ReadsUnchanged(after, touched, inst, definition, d)
  }

  ghost predicate ReadsUnchanged(after: Universe, touched: map<Id, set<Date>>, inst: Stored, definition: Definition,
                                 d: Date)
    requires d in inst.Dates()
  {
    var e := Position(inst.Dates(), d);
    forall i :: e - definition.window + 2 <= i <= e && 0 <= i ==> !MayChange(after, touched, inst.Dates()[i])
  }

  lemma CoveredIsKept(reg: Registry, before: Universe, after: Universe, touched: map<Id, set<Date>>, inst: Stored,
                      sc: Scope)
    requires Imported(before, after, touched) && ReadersCovered(reg, after, touched, inst, sc)
    ensures ReadersKept(reg, inst, sc, SeriesOf(reg, before), SeriesOf(reg, after))
  {
    hide WindowAt, SeriesOf, SeriesAt, MayChange, Imported, Stored.Dates, Stored.Trades;
    var series, series' := SeriesOf(reg, before), SeriesOf(reg, after);
    forall definition, d | definition in reg.active && d in inst.Dates() && inst.Trades(d)
                           && !InScope((definition, d), sc.from, sc.to, sc.Only())
      ensures ReadsAlike(reg, inst, definition, d, series, series')
    {
      if definition.usesComposite && WindowAt(reg, inst, definition, d).Satisfied? {
        assert definition in Users(reg) && ReadsUnchanged(after, touched, inst, definition, d);
        var e := Position(inst.Dates(), d);
        forall i | e - definition.window + 2 <= i <= e && 0 <= i
          ensures SeriesAt(series, inst.Dates()[i]) == SeriesAt(series', inst.Dates()[i])
        {
          SeriesChangesNearTouched(reg, before, after, touched, inst.Dates()[i]);
        }
      }
    }
  }

  /** A member that was not touched: rewriting only the readers' rows is enough, if its scope covers them. */
  lemma OtherRewriteIsFull(reg: Registry, inst: Stored, sc: Scope, wMax: nat, series: Series, series': Series)
    requires Ascending(inst.calendar) && BarsAscending(inst.bars) && Windows(reg, wMax)
    requires sc.definitions == Users(reg) != {} && !sc.all && ReadersKept(reg, inst, sc, series, series')
    ensures Rewritten(reg, inst, sc, FullTable(reg, inst, series), series') == FullTable(reg, inst, series')
  {
    hide CellAt, FullTable, Rewritten, ReadsAlike;
    UnchangedIsUpdated(inst);
    forall definition, d | definition in reg.active && d in inst.Dates() && inst.Trades(d)
      && !InScope((definition, d), sc.from, sc.to, sc.Only())
      ensures CellAt(reg, inst, definition, d, series') == CellAt(reg, inst, definition, d, series)
    {
      CellKept(reg, inst, inst, {}, definition, d, series, series');
    }
    RewriteCompletes(reg, inst, inst, sc, series, series');
  }

  /** A range with nothing in it is left as it is. */
  lemma EmptyRangeStays(reg: Registry, inst: Stored, sc: Scope, store: Table, series: Series)
    requires sc.from > sc.to
    ensures Rewritten(reg, inst, sc, store, series) == store
  {
    hide CellAt;
    assert Rows(reg, inst, sc.definitions, sc.from, sc.to, series) == map[];
  }

  lemma NothingStored(reg: Registry, before: Stored, after: Stored, touched: set<Date>, series: Series, series': Series)
    requires after.bars == [] && Updated(before, after, touched)
    ensures FullTable(reg, before, series) == map[] == FullTable(reg, after, series')
  {
    hide CellAt;
    forall d ensures BarOn(after.bars, d).None? && BarOn(before.bars, d).None? { }
    assert FullKeys(reg, before) == {} == FullKeys(reg, after);
  }

  lemma NoReaders(reg: Registry, inst: Stored, series: Series, series': Series)
    requires Users(reg) == {}
    ensures FullTable(reg, inst, series) == FullTable(reg, inst, series')
  {
    hide CellAt, Stored.Dates, Stored.Trades;
    forall k | k in FullKeys(reg, inst)
      ensures CellAt(reg, inst, k.0, k.1, series) == CellAt(reg, inst, k.0, k.1, series')
    {
      assert k.0.usesComposite ==> k.0 in Users(reg);
      Unread(reg, inst, k.0, k.1, series, series');
    }
  }

  lemma Unread(reg: Registry, inst: Stored, definition: Definition, d: Date, series: Series, series': Series)
    requires d in inst.Dates() && !definition.usesComposite
    ensures CellAt(reg, inst, definition, d, series) == CellAt(reg, inst, definition, d, series')
  {
    hide WindowAt, SeriesOver, Stored.Dates;
  }

  // ---- One member's share ---------------------------------------------------------------------

  /** What decides one member's scope besides its own history. */
  datatype Plan = Plan(earliest: Date, latest: Date, wMax: nat, usersWindow: nat)

  /** The one scope a member gets, or none. */
  ghost predicate ScopeFor(reg: Registry, inst: Stored, touched: Option<set<Date>>, plan: Plan, scope: Option<Scope>) {
    if inst.bars == [] then scope == None
    else if touched.Some? then
      exists first, last :: Spans(touched.value, first, last)
        && scope == Some(TouchedScope(reg, inst, first, last, plan.wMax))
    else if Users(reg) == {} then scope == None
    else
      var sc := OtherScope(reg, inst, plan.earliest, plan.latest, plan.usersWindow);
      scope == if sc.from > sc.to then None else Some(sc)
  }

  /** What a scope, or none, makes of a member's rows. */
  ghost function AppliedScope(reg: Registry, inst: Stored, scope: Option<Scope>, store: Table, series: Series): Table {
    if scope.None? then store else Rewritten(reg, inst, scope.value, store, series)
  }

  ghost function TouchedIn(touched: map<Id, set<Date>>, id: Id): Option<set<Date>> {
    if id in touched then Some(touched[id]) else None
  }

  /** The last of a member's touched dates is a session of its calendar. */
  ghost predicate InDates(inst: Stored, touched: set<Date>) {
    forall first, last :: Spans(touched, first, last) ==> last in inst.Dates()
  }

  /** A member's scope covers its readers: of a touched member within its own span and reach,
      of any other within the universe's. */
  ghost predicate MemberCovered(reg: Registry, after: Universe, touched: map<Id, set<Date>>, plan: Plan, id: Id)
    requires id in after
  {
    var inst := after[id];
    inst.bars != [] ==>
      if id in touched then
        forall first, last :: Spans(touched[id], first, last) ==>
          last in inst.Dates() && ReadersCovered(reg, after, touched, inst,
            TouchedScope(reg, inst, first, last, plan.wMax))
      else ReadersCovered(reg, after, touched, inst,
           OtherScope(reg, inst, plan.earliest, plan.latest, plan.usersWindow))
  }

  /** A touched member's windows past its reach start no earlier than its old history. */
  ghost predicate MemberOpeningKept(reg: Registry, before: Universe, after: Universe, touched: map<Id, set<Date>>,
                                    plan: Plan, id: Id)
    requires id in after && id in before
  {
    after[id].bars != [] && id in touched ==>
      forall last :: last in touched[id] && (forall t :: t in touched[id] ==> t <= last) ==>
        OpeningKept(reg, before[id], after[id], last, plan.wMax)
  }

  /** Incremental equals full for every member of the universe and its composite readers, each
      on its own calendar and touched on its own dates: where the scopes cover the readers, the
      rewritten rows are exactly those of a full pass over the new bars, if and only if the
      member's opening is kept. */
  lemma UniverseIncrementalIsFull(reg: Registry, before: Universe, after: Universe, touched: map<Id, set<Date>>,
                                  plan: Plan, id: Id, scope: Option<Scope>)
    requires Imported(before, after, touched) && id in after
    requires Windows(reg, plan.wMax) && UsersWindow(reg, plan.usersWindow)
    requires ScopeFor(reg, after[id], TouchedIn(touched, id), plan, scope)
    requires MemberCovered(reg, after, touched, plan, id)
    ensures id in before
    ensures AppliedScope(reg, after[id], scope, FullTable(reg, before[id], SeriesOf(reg, before)), SeriesOf(reg, after))
            == FullTable(reg, after[id], SeriesOf(reg, after))
       <==> MemberOpeningKept(reg, before, after, touched, plan, id)
  {
    hide SeriesOf, FullTable, Rewritten, Updated, ReadersCovered, OpeningKept, Stored.Dates, Windows, UsersWindow;
    var series, series' := SeriesOf(reg, before), SeriesOf(reg, after);
    ImportedMember(before, after, touched, id);
    var inst := after[id];
    if inst.bars == [] {
      NothingStored(reg, before[id], inst, TouchedOf(touched, id), series, series');
    } else if id in touched {
      var first, last :| Spans(touched[id], first, last)
        && scope == Some(TouchedScope(reg, inst, first, last, plan.wMax));
      CoveredIsKept(reg, before, after, touched, inst, scope.value);
      hide Imported;
      TouchedRewriteIsFull(reg, before[id], inst, touched[id], first, last, plan.wMax, series, series');
    } else if Users(reg) == {} {
      MemberIsOrdinary(before, after, touched, id);
      NoReaders(reg, inst, series, series');
    } else {
      var sc := OtherScope(reg, inst, plan.earliest, plan.latest, plan.usersWindow);
      CoveredIsKept(reg, before, after, touched, inst, sc);
      MemberIsOrdinary(before, after, touched, id);
      OtherRewriteIsFull(reg, inst, sc, plan.wMax, series, series');
      if sc.from > sc.to { EmptyRangeStays(reg, inst, sc, FullTable(reg, inst, series), series'); }
    }
  }

  lemma MemberIsOrdinary(before: Universe, after: Universe, touched: map<Id, set<Date>>, id: Id)
    requires Imported(before, after, touched) && id in after
    ensures Ascending(after[id].calendar) && BarsAscending(after[id].bars)
            && (id !in touched ==> before[id] == after[id])
  {
  }
}

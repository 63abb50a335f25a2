/** What a full pass stores, what an incremental pass rewrites, and why the two agree. */
module FeatureRuns {
  import opened Prelude
  import opened FeatureCalendar
  import opened FeatureHistory
  import opened CompositeMean

  /** A published definition, as far as a run reads it. */
  datatype Definition = Definition(id: nat, window: nat, adjusted: bool, usesComposite: bool)

  /** What a row holds: a reason, or a rendered value or label. A result that is neither, or is
      not finite, cannot be stored. */
  datatype Cell = Missing(reason: Reason) | Computed(text: string) | Unstorable

  /** The active definitions, whether the composite is one of them, and the arithmetic the
      engine performs on a satisfied window. */
  datatype Registry = Registry(
    active: set<Definition>, hasComposite: bool, arithmetic: Arithmetic,
    compute: (Definition, seq<Bar>, seq<CompositeValue>) -> Cell,
    pairReturn: (Float, Float) -> Option<Float>,
    floats: Floats, minimum: nat)

  /** One instrument's stored history. */
  datatype Stored = Stored(calendar: seq<Session>, bars: seq<Bar>, splits: seq<Split>)
  {
    function Dates(): seq<Date> {
      Trading(calendar)
    }

    predicate Trades(d: Date) {
      d in Dates() && BarOn(bars, d).Some?
    }
  }

  type Key = (Definition, Date)
  type Table = map<Key, Cell>
  type Series = map<Date, CompositeValue>

  /** Bars come in date order, one a date. */
  ghost predicate BarsAscending(bars: seq<Bar>) {
    forall i, j :: 0 <= i < j < |bars| ==> bars[i].date < bars[j].date
  }

  // ---- A row ----------------------------------------------------------------------------------

  /** A session with no composite reads as one that is not defined. */
  function SeriesAt(series: Series, d: Date): CompositeValue {
    if d in series then series[d] else CompositeValue(None, 0)
  }

  function SeriesOver(series: Series, bars: seq<Bar>): (r: seq<CompositeValue>)
    ensures |r| == |bars| && forall i :: 0 <= i < |bars| ==> r[i] == SeriesAt(series, bars[i].date)
  {
    seq(|bars|, i requires 0 <= i < |bars| => SeriesAt(series, bars[i].date))
  }

  /** The sessions as a definition sees them at a date: raw, or adjusted as of that date. */
  function Slots(reg: Registry, inst: Stored, adjusted: bool, asOf: Date): (slots: seq<Option<Bar>>)
    ensures |slots| == |inst.Dates()|
  {
    Aligned(if adjusted then Adjusted(reg.arithmetic, inst.bars, inst.splits, asOf) else inst.bars, inst.Dates())
  }

  function CellOf(reg: Registry, definition: Definition, window: WindowResult, series: Series): Cell {
    match window
    case Absent(reason) => Missing(reason)
    case NoObservation => reg.compute(definition, [], [])
    case Satisfied(bars) =>
      reg.compute(definition, bars, if definition.usesComposite && bars != [] then SeriesOver(series, bars[1..])
        else [])
  }

  ghost function WindowAt(reg: Registry, inst: Stored, definition: Definition, d: Date): WindowResult
    requires d in inst.Dates()
  {
    PlainWindow(Slots(reg, inst, definition.adjusted, d), Position(inst.Dates(), d), definition.window)
  }

  ghost function CellAt(reg: Registry, inst: Stored, definition: Definition, d: Date, series: Series): Cell
    requires d in inst.Dates()
  {
    CellOf(reg, definition, WindowAt(reg, inst, definition, d), series)
  }

  /** Every row a pass over a range stores: one for each definition at each traded session in it. */
  ghost function Rows(reg: Registry, inst: Stored, definitions: set<Definition>, from: Date, to: Date,
                      series: Series): Table {
    map k: Key | k in RowKeys(inst, definitions, from, to) :: CellAt(reg, inst, k.0, k.1, series)
  }

  ghost function RowKeys(inst: Stored, definitions: set<Definition>, from: Date, to: Date): set<Key> {
    set definition, d | definition in definitions && d in inst.Dates() && inst.Trades(d) && from <= d <= to ::
      (definition, d)
  }

  /** What a full pass over everything stored leaves: every active definition at every traded session. */
  ghost function FullTable(reg: Registry, inst: Stored, series: Series): Table {
    map k: Key | k in FullKeys(reg, inst) :: CellAt(reg, inst, k.0, k.1, series)
  }

  ghost function FullKeys(reg: Registry, inst: Stored): set<Key> {
    set definition, d | definition in reg.active && d in inst.Dates() && inst.Trades(d) :: (definition, d)
  }

  // ---- Delete, then insert --------------------------------------------------------------------

  /** A replaced range takes in every definition when none is listed. */
  predicate InScope(k: Key, from: Date, to: Date, only: set<Definition>) {
    from <= k.1 <= to && (only == {} || k.0 in only)
  }

  function Written(store: Table, from: Date, to: Date, only: set<Definition>, rows: Table): Table {
    (map k | k in store && !InScope(k, from, to, only) :: store[k]) + rows
  }

  datatype Scope = Scope(from: Date, to: Date, definitions: set<Definition>, all: bool)
  {
    function Only(): set<Definition> {
      if all then {} else definitions
    }
  }

  /** One instrument's share of a run, applied to what it has stored. */
  ghost function Rewritten(reg: Registry, inst: Stored, sc: Scope, store: Table, series: Series): Table {
    Written(store, sc.from, sc.to, sc.Only(), Rows(reg, inst, sc.definitions, sc.from, sc.to, series))
  }

  /** A rewrite of some definitions leaves the others' rows in its range alone exactly when
      it lists at least one: an empty list replaces everything. A run over the readers of the
      composite, when there are none, is such a list. */
  lemma OtherDefinitionsSurvive(reg: Registry, inst: Stored, sc: Scope, store: Table, series: Series, k: Key)
    requires !sc.all && k in store && k.0 !in sc.definitions && sc.from <= k.1 <= sc.to
    ensures var left := Rewritten(reg, inst, sc, store, series);
            (k in left <==> sc.definitions != {}) && (k in left ==> left[k] == store[k])
  {
    hide CellAt;
    var rows := Rows(reg, inst, sc.definitions, sc.from, sc.to, series);
    assert k !in rows;
  }

  /** Rewriting a scope over a full table gives a full table, if nothing outside the scope changed. */
  lemma RewriteCompletes(reg: Registry, before: Stored, after: Stored, sc: Scope, series: Series, series': Series)
    requires sc.definitions <= reg.active && (if sc.all then sc.definitions == reg.active else sc.definitions != {})
    requires forall definition, d ::
               definition in reg.active && d in before.Dates()
               && !InScope((definition, d), sc.from, sc.to, sc.Only()) ==>
               && d in after.Dates() && (before.Trades(d) <==> after.Trades(d))
               && (after.Trades(d) ==>
                     CellAt(reg, after, definition, d, series') == CellAt(reg, before, definition, d, series))
    requires before.Dates() == after.Dates()
    ensures Rewritten(reg, after, sc, FullTable(reg, before, series), series') == FullTable(reg, after, series')
  {
    hide CellAt;
    var store := FullTable(reg, before, series);
    var rows := Rows(reg, after, sc.definitions, sc.from, sc.to, series');
    var result, goal := Rewritten(reg, after, sc, store, series'), FullTable(reg, after, series');
    forall k: Key ensures k in result <==> k in goal {
      var (definition, d) := k;
    }
    forall k: Key | k in goal ensures result[k] == goal[k] {
      var (definition, d) := k;
    }
  }

  // ---- What a touched bar can change ----------------------------------------------------------

  /** An import run's effect on one instrument: only the touched dates' bars differ, each
      touched date has a bar afterwards, and no stored bar is removed. */
  ghost predicate Updated(before: Stored, after: Stored, touched: set<Date>) {
    && before.calendar == after.calendar && before.splits == after.splits && Ascending(after.calendar)
    && BarsAscending(after.bars)
    && (forall d :: d !in touched ==> BarOn(before.bars, d) == BarOn(after.bars, d))
    && (forall d :: d in touched ==> BarOn(after.bars, d).Some?)
    && (forall d :: BarOn(before.bars, d).Some? ==> BarOn(after.bars, d).Some?)
  }

  /** The first session with a stored bar; their number when there is none. */
  ghost function Opening(inst: Stored): (f: nat)
    ensures f <= |inst.Dates()|
    ensures f < |inst.Dates()| ==> BarOn(inst.bars, inst.Dates()[f]).Some?
    ensures forall i :: 0 <= i < f ==> BarOn(inst.bars, inst.Dates()[i]).None?
  {
    OpeningFrom(inst, 0)
  }

  ghost function OpeningFrom(inst: Stored, k: nat): (f: nat)
    requires k <= |inst.Dates()|
    ensures k <= f <= |inst.Dates()|
    ensures f < |inst.Dates()| ==> BarOn(inst.bars, inst.Dates()[f]).Some?
    ensures forall i :: k <= i < f ==> BarOn(inst.bars, inst.Dates()[i]).None?
    decreases |inst.Dates()| - k
  {
    if k == |inst.Dates()| || BarOn(inst.bars, inst.Dates()[k]).Some? then k else OpeningFrom(inst, k + 1)
  }

  lemma {:induction false} AdjustedBarOn(a: Arithmetic, bars: seq<Bar>, splits: seq<Split>, asOf: Date, d: Date)
    ensures var stored, adjusted := BarOn(bars, d), BarOn(Adjusted(a, bars, splits, asOf), d);
            adjusted == if stored.None? then None else Some(AdjustBar(a, stored.value, splits, asOf))
    decreases |bars|
  {
    hide AdjustBar;
    if bars != [] {
      var last := |bars| - 1;
      AdjustedBarOn(a, bars[..last], splits, asOf, d);
      assert Adjusted(a, bars, splits, asOf)[..last] == Adjusted(a, bars[..last], splits, asOf);
    }
  }

  lemma SlotIs(reg: Registry, inst: Stored, adjusted: bool, asOf: Date, i: nat)
    requires i < |inst.Dates()|
    ensures var slot, stored := Slots(reg, inst, adjusted, asOf)[i], BarOn(inst.bars, inst.Dates()[i]);
            slot == if stored.None? then None
                    else if adjusted then Some(AdjustBar(reg.arithmetic, stored.value, inst.splits, asOf)) else stored
  {
    hide AdjustBar;
    AdjustedBarOn(reg.arithmetic, inst.bars, inst.splits, asOf, inst.Dates()[i]);
  }

  lemma SlotsStored(reg: Registry, inst: Stored, adjusted: bool, asOf: Date)
    ensures forall i :: 0 <= i < |inst.Dates()| ==>
              (Slots(reg, inst, adjusted, asOf)[i].Some? <==> BarOn(inst.bars, inst.Dates()[i]).Some?)
  {
    hide Slots, BarOn;
    forall i | 0 <= i < |inst.Dates()| { SlotIs(reg, inst, adjusted, asOf, i); }
  }

  /** An untouched session's slot is what it was. */
  lemma SlotKept(reg: Registry, before: Stored, after: Stored, touched: set<Date>, adjusted: bool, asOf: Date, i: nat)
    requires Updated(before, after, touched) && i < |after.Dates()| && after.Dates()[i] !in touched
    ensures Slots(reg, before, adjusted, asOf)[i] == Slots(reg, after, adjusted, asOf)[i]
  {
    SlotIs(reg, before, adjusted, asOf, i);
    SlotIs(reg, after, adjusted, asOf, i);
  }

  /** A window's start lies past the first bar stored before, or nothing up to it was touched. */
  ghost predicate StartKept(before: Stored, after: Stored, touched: set<Date>, start: int) {
    start >= Opening(before) || forall i :: 0 <= i <= start && i < |after.Dates()| ==> after.Dates()[i] !in touched
  }

  /** Then whether anything is stored by it does not change. */
  lemma HistoryKept(reg: Registry, before: Stored, after: Stored, touched: set<Date>, adjusted: bool, asOf: Date,
                    start: int)
    requires Updated(before, after, touched) && StartKept(before, after, touched, start) && start < |after.Dates()|
    ensures NothingThrough(Slots(reg, before, adjusted, asOf), start)
            <==> NothingThrough(Slots(reg, after, adjusted, asOf), start)
  {
    hide BarOn, Slots, Stored.Dates;
    SlotsStored(reg, before, adjusted, asOf);
    SlotsStored(reg, after, adjusted, asOf);
    SameDates(before, after, touched);
    var was, now := Slots(reg, before, adjusted, asOf), Slots(reg, after, adjusted, asOf);
    if start >= Opening(before) {
      assert was[Opening(before)].Some? && now[Opening(before)].Some?;
    } else {
      forall i | 0 <= i <= start ensures was[i].Some? <==> now[i].Some? { }
    }
  }

  lemma SameDates(before: Stored, after: Stored, touched: set<Date>)
    requires Updated(before, after, touched)
    ensures before.Dates() == after.Dates() && AscendingDates(after.Dates())
  {
    TradingAscends(after.calendar);
  }

  /** A window none of whose sessions was touched, with its start kept, is what it was. */
  lemma WindowKept(reg: Registry, before: Stored, after: Stored, touched: set<Date>, definition: Definition, d: Date)
    requires Updated(before, after, touched) && definition.window >= 1 && d in after.Dates()
    requires var e := Position(after.Dates(), d);
             && StartKept(before, after, touched, e - definition.window + 1)
             && forall i :: e - definition.window + 1 <= i <= e && 0 <= i ==> after.Dates()[i] !in touched
    ensures d in before.Dates() && WindowAt(reg, before, definition, d) == WindowAt(reg, after, definition, d)
  {
    hide BarOn, Slots, StartKept, Stored.Dates;
    SameDates(before, after, touched);
    var dates := after.Dates();
    var e: int, n: int := Position(dates, d), definition.window;
    var start := e - n + 1;
    var was, now := Slots(reg, before, definition.adjusted, d), Slots(reg, after, definition.adjusted, d);
    forall i | start <= i <= e && 0 <= i ensures was[i] == now[i] {
      SlotKept(reg, before, after, touched, definition.adjusted, d, i);
    }
    HistoryKept(reg, before, after, touched, definition.adjusted, d, start);
    PlainWindowLocal(was, now, e, n);
  }

  lemma PlainWindowLocal(x: seq<Option<Bar>>, y: seq<Option<Bar>>, e: nat, n: nat)
    requires e < |x| == |y| && n >= 1
    requires forall i :: e - n + 1 <= i <= e && 0 <= i ==> x[i] == y[i]
    requires NothingThrough(x, e - n + 1) <==> NothingThrough(y, e - n + 1)
    ensures PlainWindow(x, e, n) == PlainWindow(y, e, n)
  {
    var start := e - n + 1;
    if start >= 0 && Full(x, start, e + 1) {
      assert Full(y, start, e + 1);
      assert Values(x, start, e + 1) == Values(y, start, e + 1);
    } else if start >= 0 {
      assert !Full(y, start, e + 1);
    }
  }

  /** The bars of a satisfied window are dated by its sessions. */
  lemma WindowDates(reg: Registry, inst: Stored, definition: Definition, d: Date)
    requires d in inst.Dates() && definition.window >= 1 && WindowAt(reg, inst, definition, d).Satisfied?
    ensures var start := Position(inst.Dates(), d) - definition.window + 1;
            var bars := WindowAt(reg, inst, definition, d).bars;
            && start >= 0 && |bars| == definition.window
            && forall k :: 0 <= k < |bars| ==> bars[k].date == inst.Dates()[start + k]
  {
    hide AdjustBar, Slots, Trading, BarOn;
    var start := Position(inst.Dates(), d) - definition.window + 1;
    var slots := Slots(reg, inst, definition.adjusted, d);
    forall i | 0 <= i < |slots| ensures slots[i].Some? ==> slots[i].value.date == inst.Dates()[i] {
      SlotIs(reg, inst, definition.adjusted, d, i);
    }
  }

  /** If a row reads the composite, what it reads is alike in two series. */
  ghost predicate ReadsAlike(reg: Registry, inst: Stored, definition: Definition, d: Date, series: Series,
                             series': Series)
    requires d in inst.Dates()
  {
    definition.usesComposite && WindowAt(reg, inst, definition, d).Satisfied? ==>
      var e := Position(inst.Dates(), d);
      forall i :: e - definition.window + 2 <= i <= e && 0 <= i ==>
        SeriesAt(series, inst.Dates()[i]) == SeriesAt(series', inst.Dates()[i])
  }

  /** A row is what it was when its window was not touched, its start is kept and what it
      reads of the composite did not change. */
  lemma CellKept(reg: Registry, before: Stored, after: Stored, touched: set<Date>, definition: Definition, d: Date,
                 series: Series, series': Series)
    requires Updated(before, after, touched) && definition.window >= 1 && d in after.Dates()
    requires var e := Position(after.Dates(), d);
             && StartKept(before, after, touched, e - definition.window + 1)
             && forall i :: e - definition.window + 1 <= i <= e && 0 <= i ==> after.Dates()[i] !in touched
    requires ReadsAlike(reg, after, definition, d, series, series')
    ensures d in before.Dates()
            && CellAt(reg, before, definition, d, series) == CellAt(reg, after, definition, d, series')
  {
    WindowKept(reg, before, after, touched, definition, d);
    hide WindowAt, SeriesAt, SeriesOver, StartKept, ReadsAlike, Updated, Stored.Dates;
    if WindowAt(reg, after, definition, d).Satisfied? && definition.usesComposite {
      ReadAlike(reg, after, definition, d, series, series');
    }
  }

  lemma ReadAlike(reg: Registry, inst: Stored, definition: Definition, d: Date, series: Series, series': Series)
    requires d in inst.Dates() && definition.window >= 1 && definition.usesComposite
    requires ReadsAlike(reg, inst, definition, d, series, series') && WindowAt(reg, inst, definition, d).Satisfied?
    ensures var tail := WindowAt(reg, inst, definition, d).bars[1..];
            SeriesOver(series, tail) == SeriesOver(series', tail)
  {
    WindowDates(reg, inst, definition, d);
    hide WindowAt, SeriesAt, Stored.Dates;
    var tail := WindowAt(reg, inst, definition, d).bars[1..];
    var start := Position(inst.Dates(), d) - definition.window + 1;
    forall k | 0 <= k < |tail| ensures SeriesAt(series, tail[k].date) == SeriesAt(series', tail[k].date) {
      assert tail[k].date == inst.Dates()[start + 1 + k];
    }
  }

  // ---- The scope reaches every row a touched bar can change ------------------------------------

  lemma BeyondReach(dates: seq<Date>, at: Date, w: nat, d: Date)
    requires AscendingDates(dates) && at in dates && d in dates && w >= 1 && d > ReachTo(dates, at, w)
    ensures Position(dates, d) >= Position(dates, at) + w
  {
    var i, j := Position(dates, at), Position(dates, d);
    if w > 1 && i + w - 1 < |dates| {
      assert j > i + w - 1;
    } else if w == 1 {
      assert j > i;
    }
  }

  /** Exactly: of a session, the sessions fewer than w positions on; of another date, that date. */
  lemma ReachExactly(dates: seq<Date>, at: Date, w: nat, d: Date)
    requires AscendingDates(dates) && w >= 1
    ensures at in dates && d in dates ==> (d <= ReachTo(dates, at, w) <==> Position(dates, d) < Position(dates, at) + w)
    ensures at in dates ==> ReachTo(dates, at, w) in dates
    ensures at !in dates ==> ReachTo(dates, at, w) == at
  {
    if at in dates && d in dates {
      var i, j := Position(dates, at), Position(dates, d);
      Ordered(dates, at, j);
      if i + w - 1 < |dates| {
        PositionIs(dates, i + w - 1);
        Ordered(dates, dates[i + w - 1], j);
      }
    }
  }

  lemma Ordered(dates: seq<Date>, d: Date, i: nat)
    requires AscendingDates(dates) && d in dates && i < |dates|
    ensures i <= Position(dates, d) <==> dates[i] <= d
  {
  }

  lemma {:induction false} LastBarIsLast(bars: seq<Bar>, d: Date)
    requires BarsAscending(bars) && BarOn(bars, d).Some?
    ensures bars != [] && bars[0].date <= d <= bars[|bars| - 1].date
  {
    var b := BarOn(bars, d).value;
    var i :| 0 <= i < |bars| && bars[i] == b;
  }

  ghost predicate Spans(touched: set<Date>, first: Date, last: Date) {
    first in touched && last in touched && forall t :: t in touched ==> first <= t <= last
  }

  ghost predicate Windows(reg: Registry, wMax: nat) {
    forall definition :: definition in reg.active ==> 1 <= definition.window <= wMax
  }

  function Lesser(a: Date, b: Date): Date {
    if a < b then a else b
  }

  function Greater(a: Date, b: Date): Date {
    if a > b then a else b
  }

  /** A touched instrument's scope: every definition, from its first touched session to the
      reach of the longest window from its last, no further than its last bar. */
  function TouchedScope(reg: Registry, inst: Stored, first: Date, last: Date, wMax: nat): Scope
    requires inst.bars != []
  {
    Scope(first, Lesser(ReachTo(inst.Dates(), last, wMax), inst.bars[|inst.bars| - 1].date), reg.active, true)
  }

  /** Outside a scope, every reader's row reads alike of two series. */
  ghost predicate ReadersKept(reg: Registry, inst: Stored, sc: Scope, series: Series, series': Series) {
    forall definition, d :: definition in reg.active && d in inst.Dates() && inst.Trades(d)
                            && !InScope((definition, d), sc.from, sc.to, sc.Only()) ==>
      ReadsAlike(reg, inst, definition, d, series, series')
  }

  /** Past the reach of the last touched session, no active window starts before the first bar
      that was stored before the import. */
  ghost predicate OpeningKept(reg: Registry, before: Stored, after: Stored, last: Date, wMax: nat) {
    forall definition, d :: definition in reg.active && d in after.Dates() && after.Trades(d)
                            && d > ReachTo(after.Dates(), last, wMax) ==>
      Position(after.Dates(), d) - definition.window + 1 >= Opening(before)
  }

  /** Rows before the first touched session, or past the reach of the last, are what they were. */
  lemma OutsideIsKept(reg: Registry, before: Stored, after: Stored, touched: set<Date>, first: Date, last: Date, w: nat,
                      definition: Definition, d: Date, series: Series, series': Series)
    requires Updated(before, after, touched) && Spans(touched, first, last) && last in after.Dates()
    requires 1 <= definition.window <= w && d in after.Dates()
    requires d < first || (d > ReachTo(after.Dates(), last, w)
                           && Position(after.Dates(), d) - definition.window + 1 >= Opening(before))
    requires ReadsAlike(reg, after, definition, d, series, series')
    ensures d in before.Dates()
            && CellAt(reg, before, definition, d, series) == CellAt(reg, after, definition, d, series')
  {
    hide CellAt, BarOn, ReachTo, Stored.Dates, Opening, ReadsAlike;
    SameDates(before, after, touched);
    var dates := after.Dates();
    var e, l := Position(dates, d), Position(dates, last);
    if d > ReachTo(dates, last, w) { BeyondReach(dates, last, w, d); }
    forall i | 0 <= i < |dates| && (if d < first then i <= e else i >= e - definition.window + 1)
      ensures dates[i] !in touched
    {
      Ordered(dates, last, i);
      Ordered(dates, d, i);
    }
    CellKept(reg, before, after, touched, definition, d, series, series');
  }

  lemma NotTouchedOutside(after: Stored, touched: set<Date>, first: Date, last: Date, wMax: nat, d: Date)
    requires Ascending(after.calendar) && Spans(touched, first, last) && last in after.Dates() && d in after.Dates()
    requires d < first || d > ReachTo(after.Dates(), last, wMax)
    ensures d !in touched
  {
    TradingAscends(after.calendar);
  }

  lemma UntouchedTrades(before: Stored, after: Stored, touched: set<Date>, d: Date)
    requires Updated(before, after, touched) && d !in touched
    ensures before.Trades(d) <==> after.Trades(d)
  {
  }

  /** A touched instrument whose readers read alike outside its scope: rewriting the scope over
      a full table gives the full table over the new bars, if no window past the reach starts
      before the first bar stored before. */
  lemma TouchedRewriteCompletes(reg: Registry, before: Stored, after: Stored, touched: set<Date>, first: Date,
                                last: Date, wMax: nat, series: Series, series': Series)
    requires Updated(before, after, touched) && Spans(touched, first, last) && last in after.Dates()
    requires Windows(reg, wMax) && after.bars != []
    requires ReadersKept(reg, after, TouchedScope(reg, after, first, last, wMax), series, series')
    requires OpeningKept(reg, before, after, last, wMax)
    ensures Rewritten(reg, after, TouchedScope(reg, after, first, last, wMax), FullTable(reg, before, series), series')
         == FullTable(reg, after, series')
  {
    hide CellAt, FullTable, Rewritten, ReachTo, Stored.Dates, Stored.Trades, ReadsAlike, Opening;
    var sc := TouchedScope(reg, after, first, last, wMax);
    SameDates(before, after, touched);
    forall definition, d | definition in reg.active && d in before.Dates()
      && !InScope((definition, d), sc.from, sc.to, sc.Only())
      ensures (before.Trades(d) <==> after.Trades(d))
           && (after.Trades(d) ==>
                 CellAt(reg, after, definition, d, series') == CellAt(reg, before, definition, d, series))
    {
      OutsideScope(reg, before, after, touched, first, last, wMax, definition, d, series, series');
    }
    RewriteCompletes(reg, before, after, sc, series, series');
  }

  lemma OutsideScope(reg: Registry, before: Stored, after: Stored, touched: set<Date>, first: Date, last: Date,
                     wMax: nat, definition: Definition, d: Date, series: Series, series': Series)
    requires Updated(before, after, touched) && Spans(touched, first, last) && last in after.Dates()
    requires Windows(reg, wMax) && after.bars != [] && definition in reg.active && d in after.Dates()
             && d in before.Dates()
    requires var sc := TouchedScope(reg, after, first, last, wMax);
             ReadersKept(reg, after, sc, series, series') && !InScope((definition, d), sc.from, sc.to, sc.Only())
    requires OpeningKept(reg, before, after, last, wMax)
    ensures before.Trades(d) <==> after.Trades(d)
    ensures after.Trades(d) ==> CellAt(reg, after, definition, d, series') == CellAt(reg, before, definition, d, series)
  {
    hide CellAt, ReachTo, Stored.Dates, BarOn, ReadsAlike, Opening;
    if after.Trades(d) {
      LastBarIsLast(after.bars, d);
      assert d < first || d > ReachTo(after.Dates(), last, wMax);
      OutsideIsKept(reg, before, after, touched, first, last, wMax, definition, d, series, series');
      NotTouchedOutside(after, touched, first, last, wMax, d);
      UntouchedTrades(before, after, touched, d);
    }
  }

  /** And only if: past the reach, a window that starts before that first bar, but after a
      touched one, says "insufficient history" where a full pass says "gap". */
  lemma OpeningLeavesStale(reg: Registry, before: Stored, after: Stored, touched: set<Date>, first: Date, last: Date,
                           wMax: nat, series: Series, series': Series, definition: Definition, d: Date)
    requires Updated(before, after, touched) && Spans(touched, first, last) && last in after.Dates()
    requires Windows(reg, wMax) && after.bars != []
    requires definition in reg.active && d in after.Dates() && after.Trades(d) && d > ReachTo(after.Dates(), last, wMax)
    requires Position(after.Dates(), d) - definition.window + 1 < Opening(before)
    ensures var left := Rewritten(reg, after, TouchedScope(reg, after, first, last, wMax),
            FullTable(reg, before, series), series');
            && (definition, d) in left && left[(definition, d)] == Missing(InsufficientHistory)
            && (definition, d) in FullTable(reg, after, series')
                && FullTable(reg, after, series')[(definition, d)] == Missing(WindowGap)
  {
    hide WindowAt, BarOn, Stored.Dates, Opening, ReachTo, Stored.Trades, Rewritten, FullTable;
    SameDates(before, after, touched);
    NotTouchedOutside(after, touched, first, last, wMax, d);
    UntouchedTrades(before, after, touched, d);
    OpeningWindows(reg, before, after, touched, first, last, wMax, definition, d);
    InFullTable(reg, before, series, definition, d);
    InFullTable(reg, after, series', definition, d);
    var sc := TouchedScope(reg, after, first, last, wMax);
    OutsideStays(reg, after, sc, FullTable(reg, before, series), series', (definition, d));
  }

  lemma InFullTable(reg: Registry, inst: Stored, series: Series, definition: Definition, d: Date)
    requires definition in reg.active && d in inst.Dates() && inst.Trades(d)
    ensures (definition, d) in FullTable(reg, inst, series)
    ensures FullTable(reg, inst, series)[(definition, d)] == CellAt(reg, inst, definition, d, series)
  {
    hide CellAt;
    assert (definition, d) in FullKeys(reg, inst);
  }

  /** A rewrite leaves what lies outside its scope. */
  lemma OutsideStays(reg: Registry, inst: Stored, sc: Scope, store: Table, series: Series, k: Key)
    requires k in store && !InScope(k, sc.from, sc.to, sc.Only())
    ensures k in Rewritten(reg, inst, sc, store, series) && Rewritten(reg, inst, sc, store, series)[k] == store[k]
  {
    hide CellAt;
    assert k !in Rows(reg, inst, sc.definitions, sc.from, sc.to, series);
  }

  lemma OpeningWindows(reg: Registry, before: Stored, after: Stored, touched: set<Date>, first: Date, last: Date,
                       wMax: nat, definition: Definition, d: Date)
    requires Updated(before, after, touched) && Spans(touched, first, last) && last in after.Dates()
    requires 1 <= definition.window <= wMax && d in after.Dates() && d in before.Dates() && after.Trades(d)
    requires d !in touched && d > ReachTo(after.Dates(), last, wMax)
    requires Position(after.Dates(), d) - definition.window + 1 < Opening(before)
    ensures WindowAt(reg, before, definition, d) == Absent(InsufficientHistory)
    ensures WindowAt(reg, after, definition, d) == Absent(WindowGap)
  {
    hide BarOn, Slots, Stored.Dates, ReachTo;
    SameDates(before, after, touched);
    var dates := after.Dates();
    var e, l := Position(dates, d), Position(dates, last);
    BeyondReach(dates, last, wMax, d);
    var start := e - definition.window + 1;
    SlotsStored(reg, before, definition.adjusted, d);
    SlotsStored(reg, after, definition.adjusted, d);
    var was, now := Slots(reg, before, definition.adjusted, d), Slots(reg, after, definition.adjusted, d);
    Ordered(dates, last, start);
    assert dates[start] !in touched;
    assert now[l].Some? && now[start].None? && was[e].Some? && now[e].Some?;
  }

  /** Incremental equals full, for definitions that do not read the composite: the stored rows
      after rewriting only the scope are exactly those of a full pass over the new bars, values
      and absence reasons alike, if and only if no window past the reach starts before the first
      bar that was stored before. */
  lemma IncrementalIsFull(reg: Registry, before: Stored, after: Stored, touched: set<Date>, first: Date, last: Date,
                          wMax: nat, series: Series, series': Series)
    requires Updated(before, after, touched) && Spans(touched, first, last) && last in after.Dates()
    requires Windows(reg, wMax) && after.bars != []
    requires forall definition :: definition in reg.active ==> !definition.usesComposite
    ensures Rewritten(reg, after, TouchedScope(reg, after, first, last, wMax), FullTable(reg, before, series), series')
            == FullTable(reg, after, series')
       <==> OpeningKept(reg, before, after, last, wMax)
  {
    assert ReadersKept(reg, after, TouchedScope(reg, after, first, last, wMax), series, series');
    hide Updated, Spans, Rewritten, FullTable, ReadersKept, Windows;
    TouchedRewriteIsFull(reg, before, after, touched, first, last, wMax, series, series');
  }

  /** The same for a touched instrument with readers that read alike outside its scope. */
  lemma TouchedRewriteIsFull(reg: Registry, before: Stored, after: Stored, touched: set<Date>, first: Date, last: Date,
                             wMax: nat, series: Series, series': Series)
    requires Updated(before, after, touched) && Spans(touched, first, last) && last in after.Dates()
    requires Windows(reg, wMax) && after.bars != []
    requires ReadersKept(reg, after, TouchedScope(reg, after, first, last, wMax), series, series')
    ensures Rewritten(reg, after, TouchedScope(reg, after, first, last, wMax), FullTable(reg, before, series), series')
            == FullTable(reg, after, series')
       <==> OpeningKept(reg, before, after, last, wMax)
  {
    if OpeningKept(reg, before, after, last, wMax) {
      hide *;
      TouchedRewriteCompletes(reg, before, after, touched, first, last, wMax, series, series');
    } else {
      hide Updated, Spans, Rewritten, FullTable, ReadersKept, Windows, ReachTo, Stored.Dates, Stored.Trades, Opening;
      var definition, d :| definition in reg.active && d in after.Dates() && after.Trades(d)
                           && d > ReachTo(after.Dates(), last, wMax)
                           && Position(after.Dates(), d) - definition.window + 1 < Opening(before);
      OpeningLeavesStale(reg, before, after, touched, first, last, wMax, series, series', definition, d);
    }
  }

  /** Two ways to meet it without looking at windows: the last touched session is not before the
      first bar stored before, or is the session just before it, as in a contiguous backfill. */
  lemma BackfillKeepsOpening(reg: Registry, before: Stored, after: Stored, last: Date, wMax: nat)
    requires Ascending(after.calendar) && Windows(reg, wMax) && last in after.Dates()
    requires Position(after.Dates(), last) + 1 >= Opening(before)
    ensures OpeningKept(reg, before, after, last, wMax)
  {
    hide Stored.Dates, Stored.Trades, Opening, ReachTo;
    TradingDates(after);
    forall definition, d | definition in reg.active && d in after.Dates() && d > ReachTo(after.Dates(), last, wMax)
      ensures Position(after.Dates(), d) - definition.window + 1 >= Opening(before)
    {
      BeyondReach(after.Dates(), last, wMax, d);
    }
  }

  lemma TradingDates(inst: Stored)
    requires Ascending(inst.calendar)
    ensures AscendingDates(inst.Dates())
  {
    TradingAscends(inst.calendar);
  }

  // ---- A bar before the first stored one ------------------------------------------------------

  function ThreeOpenDays(): seq<Session> {
    [Session(0, Open), Session(1, Open), Session(2, Open)]
  }

  function BarAt(d: Date): Bar {
    Bar(d, 1, 1, 1, 1, 1)
  }

  lemma ThreeDates()
    ensures Trading(ThreeOpenDays()) == [0, 1, 2]
  {
    var c := ThreeOpenDays();
    assert c[..2] == [Session(0, Open), Session(1, Open)] && c[..2][..1] == [Session(0, Open)] && c[..1][..0] == [];
    assert Trading([Session(0, Open)]) == [0] by { assert [Session(0, Open)][..0] == []; }
    assert Trading(c[..2]) == [0, 1];
  }

  /** One stored session gains an earlier one: what the slots hold before and after. */
  lemma EarlierBarSlots(reg: Registry)
    ensures var before, after :=
            Stored(ThreeOpenDays(), [BarAt(2)], []), Stored(ThreeOpenDays(), [BarAt(0), BarAt(2)], []);
            && Slots(reg, before, false, 2) == [None, None, Some(BarAt(2))]
            && Slots(reg, after, false, 2) == [Some(BarAt(0)), None, Some(BarAt(2))]
            && before.Dates() == after.Dates() == [0, 1, 2]
            && before.Trades(2) && after.Trades(2)
  {
    ThreeDates();
    assert [BarAt(0), BarAt(2)][..1] == [BarAt(0)] && [BarAt(0)][..0] == [] && [BarAt(2)][..0] == [];
  }

  lemma EarlierBarWindows(reg: Registry, definition: Definition)
    requires definition == Definition(1, 2, false, false)
    ensures var before, after :=
            Stored(ThreeOpenDays(), [BarAt(2)], []), Stored(ThreeOpenDays(), [BarAt(0), BarAt(2)], []);
            && before.Dates() == after.Dates() == [0, 1, 2] && before.Trades(2) && after.Trades(2)
            && WindowAt(reg, before, definition, 2) == Absent(InsufficientHistory)
            && WindowAt(reg, after, definition, 2) == Absent(WindowGap)
  {
    EarlierBarSlots(reg);
    hide Slots, Stored.Dates, Stored.Trades;
    PositionIs([0, 1, 2], 2);
    var slots: seq<Option<Bar>> := [Some(BarAt(0)), None, Some(BarAt(2))];
    assert slots[1].None? && slots[0].Some?;
    assert !Full(slots, 1, 3) && !NothingThrough(slots, 1);
  }

  lemma EarlierBarReach()
    ensures ReachTo([0, 1, 2], 0, 2) == 1
  {
    PositionIs([0, 1, 2], 0);
  }

  /** The condition on the first stored bar is needed. A bar is stored on the third session
      only; an import adds one on the first. The two-session row of the third session is past
      the reach of the first, so it keeps "insufficient history", where a full pass says "gap". */
  lemma EarlierBarNeedsAFullPass(reg: Registry, series: Series)
    requires reg.active == {Definition(1, 2, false, false)}
    ensures var k := (Definition(1, 2, false, false), 2);
            var before, after := Stored(ThreeOpenDays(), [BarAt(2)], []),
              Stored(ThreeOpenDays(), [BarAt(0), BarAt(2)], []);
            var left := Rewritten(reg, after, TouchedScope(reg, after, 0, 0, 2), FullTable(reg, before, series),
              series);
            && k in left && left[k] == Missing(InsufficientHistory)
            && k in FullTable(reg, after, series) && FullTable(reg, after, series)[k] == Missing(WindowGap)
  {
    EarlierBarWindows(reg, Definition(1, 2, false, false));
    EarlierBarReach();
    hide WindowAt, Stored.Dates, Stored.Trades, ReachTo, BarAt, ThreeOpenDays, FullTable, Rewritten;
    var definition := Definition(1, 2, false, false);
    var before, after := Stored(ThreeOpenDays(), [BarAt(2)], []), Stored(ThreeOpenDays(), [BarAt(0), BarAt(2)], []);
    InFullTable(reg, before, series, definition, 2);
    InFullTable(reg, after, series, definition, 2);
    OutsideStays(reg, after, TouchedScope(reg, after, 0, 0, 2), FullTable(reg, before, series), series,
      (definition, 2));
  }

  /** An import the theorems above are about: a bar is stored on the first session, and one
      arrives for the second. */
  lemma OrdinaryImport()
    ensures Updated(Stored(ThreeOpenDays(), [BarAt(0)], []), Stored(ThreeOpenDays(), [BarAt(0), BarAt(1)], []), {1})
    ensures Spans({1}, 1, 1)
  {
    ThreeDates();
    var before, after := Stored(ThreeOpenDays(), [BarAt(0)], []), Stored(ThreeOpenDays(), [BarAt(0), BarAt(1)], []);
    assert after.bars[..1] == before.bars && before.bars[..0] == [];
    forall d ensures d != 1 ==> BarOn(before.bars, d) == BarOn(after.bars, d) { }
    assert before.Trades(0);
  }
}

/** One instrument's share of a run: its rows, computed one by one, and the stored range they replace. */
module FeatureStore {
  import opened Prelude
  import opened FeatureCalendar
  import opened FeatureHistory
  import opened CompositeMean
  import opened FeatureRuns

  datatype ValueRow = ValueRow(definition: Definition, session: Date, cell: Cell)

  /** What inserting rows leaves at each key. */
  function RowMap(rows: seq<ValueRow>): Table {
    if rows == [] then map[]
    else
      var last := rows[|rows| - 1];
      RowMap(rows[..|rows| - 1])[(last.definition, last.session) := last.cell]
  }

  function DefinitionSet(definitions: seq<Definition>): set<Definition> {
    set i | 0 <= i < |definitions| :: definitions[i]
  }

  /** One instrument's stored values. */
  class ValueStore {
    var values: Table

    /** Replaces the values of a range, only the listed definitions', or all of them when none is listed. */
    method WriteValues(from: Date, to: Date, only: set<Definition>, rows: seq<ValueRow>)
      modifies this
      ensures values == Written(old(values), from, to, only, RowMap(rows))
    {
      values := map k | k in values && !InScope(k, from, to, only) :: values[k];
      ghost var cleared := values;
      for i := 0 to |rows|
        invariant values == cleared + RowMap(rows[..i])
      {
        assert rows[..i + 1][..i] == rows[..i];
        values := values[(rows[i].definition, rows[i].session) := rows[i].cell];
      }
      assert rows[..|rows|] == rows;
    }
  }

  ghost function StoredOf(h: MemberHistory): Stored {
    Stored(h.calendar, h.bars, h.splits)
  }

  lemma IndexIsPosition(h: History, bars: seq<Bar>, calendar: seq<Session>, d: Date)
    requires Ascending(calendar) && Indexes(h, bars, calendar) && d in h.dates
    ensures d in h.index && h.index[d] == Position(Trading(calendar), d)
  {
    TradingAscends(calendar);
    PositionIs(h.dates, h.index[d]);
  }

  /** One row: the window on the definition's basis, and what the definition makes of it. */
  method RowFor(reg: Registry, h: MemberHistory, definition: Definition, session: Date, series: Series)
    returns (cell: Cell)
    requires h.Valid() && h.arithmetic == reg.arithmetic && session in Trading(h.calendar)
    modifies h
    ensures h.Valid()
    ensures cell == CellAt(reg, StoredOf(h), definition, session, series)
  {
    hide Indexes, Aligned, PlainWindow, AdjustBar, Trading;
    var view := h.raw;
    var adjusted := h.AdjustedAt(session);
    ghost var basis := h.bars;
    if definition.adjusted {
      view := adjusted;
      basis := Adjusted(h.arithmetic, h.bars, h.splits, session);
    }
    IndexedDates(view, basis, h.calendar);
    IndexIsPosition(view, basis, h.calendar, session);
    var window := Window(view, basis, h.calendar, session, definition.window);
    cell := CellOf(reg, definition, window, series);
  }

  lemma IndexedDates(h: History, bars: seq<Bar>, calendar: seq<Session>)
    requires Indexes(h, bars, calendar)
    ensures h.dates == Trading(calendar)
  {
  }

  /** Every row of a table can be stored. */
  ghost predicate Storable(rows: Table) {
    forall k :: k in rows ==> rows[k] != Unstorable
  }

  /** Every definition's row at one session, or failure at the first that cannot be stored. */
  method RowsForSession(reg: Registry, h: MemberHistory, definitions: seq<Definition>, session: Date, series: Series)
    returns (rows: seq<ValueRow>, failed: bool)
    requires h.Valid() && h.arithmetic == reg.arithmetic && session in StoredOf(h).Dates()
    modifies h
    ensures h.Valid()
    ensures failed <==> !Storable(RowsAt(reg, StoredOf(h), DefinitionSet(definitions), session, series))
    ensures !failed ==> RowMap(rows) == RowsAt(reg, StoredOf(h), DefinitionSet(definitions), session, series)
  {
    hide CellAt, Trading, Indexes, RowMap, RowsAt, Storable;
    rows := [];
    NoRows(reg, StoredOf(h), session, series);
    NothingUnstorable();
    assert definitions[..0] == [];
    for j := 0 to |definitions|
      invariant h.Valid()
      invariant RowMap(rows) == RowsAt(reg, StoredOf(h), DefinitionSet(definitions[..j]), session, series)
      invariant Storable(RowMap(rows))
    {
      var cell := RowFor(reg, h, definitions[j], session, series);
      if cell == Unstorable {
        RowsAtHas(reg, StoredOf(h), definitions, j, session, series);
        return rows, true;
      }
      RowAppend(rows, ValueRow(definitions[j], session, cell));
      RowsAtStep(reg, StoredOf(h), definitions, j, session, series);
      StorableStep(RowMap(rows), (definitions[j], session), cell);
      rows := rows + [ValueRow(definitions[j], session, cell)];
    }
    assert definitions[..|definitions|] == definitions;
    failed := false;
  }

  lemma NothingUnstorable()
    ensures Storable(map[])
  {
  }

  lemma StorableStep(rows: Table, k: Key, cell: Cell)
    requires Storable(rows) && cell != Unstorable
    ensures Storable(rows[k := cell])
  {
  }

  lemma RowsAtHas(reg: Registry, inst: Stored, definitions: seq<Definition>, j: nat, session: Date, series: Series)
    requires session in inst.Dates() && j < |definitions|
             && CellAt(reg, inst, definitions[j], session, series) == Unstorable
    ensures !Storable(RowsAt(reg, inst, DefinitionSet(definitions), session, series))
  {
    hide CellAt;
    var rows := RowsAt(reg, inst, DefinitionSet(definitions), session, series);
    assert definitions[j] in DefinitionSet(definitions);
    assert (definitions[j], session) in rows && rows[(definitions[j], session)] == Unstorable;
  }

  lemma NoRows(reg: Registry, inst: Stored, session: Date, series: Series)
    requires session in inst.Dates()
    ensures RowMap([]) == map[] == RowsAt(reg, inst, DefinitionSet([]), session, series)
  {
    hide CellAt;
    assert DefinitionSet([]) == {};
  }

  lemma {:induction false} RowsConcat(x: seq<ValueRow>, y: seq<ValueRow>)
    ensures RowMap(x + y) == RowMap(x) + RowMap(y)
    decreases |y|
  {
    if y == [] {
      assert x + y == x;
    } else {
      RowsConcat(x, y[..|y| - 1]);
      assert (x + y)[..|x + y| - 1] == x + y[..|y| - 1];
    }
  }

  /** The scope's definitions at every stored session in its range, row by row, or failure. */
  method RowsFor(reg: Registry, h: MemberHistory, definitions: seq<Definition>, from: Date, to: Date, series: Series)
    returns (rows: seq<ValueRow>, failed: bool)
    requires h.Valid() && h.arithmetic == reg.arithmetic
    modifies h
    ensures h.Valid()
    ensures failed <==> !Storable(Rows(reg, StoredOf(h), DefinitionSet(definitions), from, to, series))
    ensures !failed ==> RowMap(rows) == Rows(reg, StoredOf(h), DefinitionSet(definitions), from, to, series)
  {
    hide CellAt, Trading, Indexes, RowsThrough, RowsAt, RowMap, Rows, Storable;
    rows := [];
    IndexedDates(h.raw, h.bars, h.calendar);
    ghost var inst := StoredOf(h);
    RowsThroughNone(reg, inst, DefinitionSet(definitions), from, to, series);
    NothingUnstorable();
    var sessions := h.raw.dates;
    for i := 0 to |sessions|
      invariant h.Valid()
      invariant RowMap(rows) == RowsThrough(reg, inst, DefinitionSet(definitions), from, to, series, i)
      invariant Storable(RowMap(rows))
    {
      var session := sessions[i];
      SlotStored(h.raw, h.bars, h.calendar, i);
      RowsThroughStep(reg, inst, DefinitionSet(definitions), from, to, series, i);
      if session < from || session > to {
        continue;
      }
      if h.raw.slots[i].None? {
        continue;
      }
      var added, broke := RowsForSession(reg, h, definitions, session, series);
      if broke {
        RowsHave(reg, inst, DefinitionSet(definitions), from, to, series, session);
        return rows, true;
      }
      RowsConcat(rows, added);
      StorableUnion(RowMap(rows), RowMap(added));
      rows := rows + added;
    }
    RowsThroughAll(reg, inst, DefinitionSet(definitions), from, to, series);
    failed := false;
  }

  lemma StorableUnion(x: Table, y: Table)
    requires Storable(x) && Storable(y)
    ensures Storable(x + y)
  {
  }

  lemma RowsHave(reg: Registry, inst: Stored, definitions: set<Definition>, from: Date, to: Date, series: Series,
                 session: Date)
    requires session in inst.Dates() && BarOn(inst.bars, session).Some? && from <= session <= to
    requires !Storable(RowsAt(reg, inst, definitions, session, series))
    ensures !Storable(Rows(reg, inst, definitions, from, to, series))
  {
    hide CellAt, BarOn, Trading;
    var at := RowsAt(reg, inst, definitions, session, series);
    var k :| k in at && at[k] == Unstorable;
    assert k.1 == session && k in RowKeys(inst, definitions, from, to);
    assert Rows(reg, inst, definitions, from, to, series)[k] == Unstorable;
  }

  lemma RowsThroughNone(reg: Registry, inst: Stored, definitions: set<Definition>, from: Date, to: Date, series: Series)
    ensures RowMap([]) == map[] == RowsThrough(reg, inst, definitions, from, to, series, 0)
  {
    hide CellAt;
    assert inst.Dates()[..0] == [];
  }

  lemma SlotStored(h: History, bars: seq<Bar>, calendar: seq<Session>, i: nat)
    requires Indexes(h, bars, calendar) && i < |h.dates|
    ensures i < |h.slots| && h.slots[i] == BarOn(bars, h.dates[i])
  {
  }

  lemma RowAppend(rows: seq<ValueRow>, row: ValueRow)
    ensures RowMap(rows + [row]) == RowMap(rows)[(row.definition, row.session) := row.cell]
  {
    assert (rows + [row])[..|rows|] == rows;
  }

  /** One session's rows. */
  ghost function RowsAt(reg: Registry, inst: Stored, definitions: set<Definition>, session: Date, series: Series): Table
    requires session in inst.Dates()
  {
    map k: Key | k in (set definition | definition in definitions :: (definition, session)) ::
      CellAt(reg, inst, k.0, session, series)
  }

  lemma RowsAtStep(reg: Registry, inst: Stored, definitions: seq<Definition>, j: nat, session: Date, series: Series)
    requires session in inst.Dates() && j < |definitions|
    ensures RowsAt(reg, inst, DefinitionSet(definitions[..j + 1]), session, series)
         == RowsAt(reg, inst, DefinitionSet(definitions[..j]), session, series)
              [(definitions[j], session) := CellAt(reg, inst, definitions[j], session, series)]
  {
    hide CellAt;
    assert DefinitionSet(definitions[..j + 1]) == DefinitionSet(definitions[..j]) + {definitions[j]};
  }

  /** The rows of the first i sessions of a range. */
  ghost function RowsThrough(reg: Registry, inst: Stored, definitions: set<Definition>, from: Date, to: Date,
                             series: Series, i: nat): Table
    requires i <= |inst.Dates()|
  {
    map k: Key | k in RowKeys(inst, definitions, from, to) && k.1 in inst.Dates()[..i] ::
      CellAt(reg, inst, k.0, k.1, series)
  }

  lemma RowsThroughStep(reg: Registry, inst: Stored, definitions: set<Definition>, from: Date, to: Date,
                        series: Series, i: nat)
    requires i < |inst.Dates()|
    ensures var d := inst.Dates()[i];
            RowsThrough(reg, inst, definitions, from, to, series, i + 1)
            == if from <= d <= to && BarOn(inst.bars, d).Some?
               then RowsThrough(reg, inst, definitions, from, to, series, i) + RowsAt(reg, inst, definitions, d, series)
               else RowsThrough(reg, inst, definitions, from, to, series, i)
  {
    hide CellAt, BarOn, Trading;
    var dates := inst.Dates();
    var d := dates[i];
    assert dates[..i + 1] == dates[..i] + [d];
    assert inst.Trades(d) <==> BarOn(inst.bars, d).Some?;
  }

  lemma RowsThroughAll(reg: Registry, inst: Stored, definitions: set<Definition>, from: Date, to: Date, series: Series)
    ensures RowsThrough(reg, inst, definitions, from, to, series, |inst.Dates()|)
            == Rows(reg, inst, definitions, from, to, series)
  {
    hide CellAt;
    assert inst.Dates()[..|inst.Dates()|] == inst.Dates();
  }

  datatype Status = Skipped | Failed | Succeeded

  /** One instrument's share of a run: compute the scope's rows, then replace the range with
      them. A row that cannot be stored leaves everything as it was. */
  method ComputeInstrument(reg: Registry, h: MemberHistory, sc: Scope, definitions: seq<Definition>, series: Series,
                           store: ValueStore)
    returns (status: Status)
    requires h.Valid() && h.arithmetic == reg.arithmetic && DefinitionSet(definitions) == sc.definitions
    modifies h, store
    ensures h.Valid()
    ensures status == if h.bars == [] then Skipped
                      else if Storable(Rows(reg, StoredOf(h), sc.definitions, sc.from, sc.to, series)) then Succeeded
                      else Failed
    ensures store.values == if status == Succeeded then Rewritten(reg, StoredOf(h), sc, old(store.values), series)
            else old(store.values)
  {
    hide Rows, Storable;
    if h.bars == [] {
      return Skipped;
    }
    var rows, failed := RowsFor(reg, h, definitions, sc.from, sc.to, series);
    if failed {
      return Failed;
    }
    store.WriteValues(sc.from, sc.to, sc.Only(), rows);
    status := Succeeded;
  }
}

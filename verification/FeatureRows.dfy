/** What a stored row and the composite are, said from the stored bars, the splits and the
    definition's own formula. */
module FeatureRows {
  import opened Prelude
  import opened FeatureCalendar
  import opened FeatureHistory
  import opened CompositeMean
  import opened FeatureRuns
  import opened FeatureComposite

  // ---- The adjusted basis ---------------------------------------------------------------------

  /** The ratios, in order, of the splits gone ex after one date and by another; a ratio of zero counts for none. */
  function Applying(a: Arithmetic, splits: seq<Split>, after: Date, through: Date): seq<Float> {
    if splits == [] then []
    else
      (if after < splits[0].exDate <= through && !a.isZero(splits[0].ratio) then [splits[0].ratio] else [])
      + Applying(a, splits[1..], after, through)
  }

  function DivideEach(a: Arithmetic, x: Float, ratios: seq<Float>): Float
    decreases |ratios|
  {
    if ratios == [] then x else DivideEach(a, a.divide(x, ratios[0]), ratios[1..])
  }

  /** A stored bar as a definition sees it at a date. */
  function OnBasis(a: Arithmetic, stored: Bar, splits: seq<Split>, adjusted: bool, d: Date): Bar {
    if adjusted then
      var ratios := Applying(a, splits, stored.date, d);
      stored.(open := DivideEach(a, stored.open, ratios), high := DivideEach(a, stored.high, ratios),
              low := DivideEach(a, stored.low, ratios), close := DivideEach(a, stored.close, ratios))
    else stored
  }

  lemma {:induction false} ApplyingLast(a: Arithmetic, splits: seq<Split>, last: Split, after: Date, through: Date)
    ensures Applying(a, splits + [last], after, through)
         == Applying(a, splits, after, through)
            + (if after < last.exDate <= through && !a.isZero(last.ratio) then [last.ratio] else [])
  {
    if splits == [] {
      assert [last][1..] == [];
    } else {
      assert (splits + [last])[1..] == splits[1..] + [last] && (splits + [last])[0] == splits[0];
      ApplyingLast(a, splits[1..], last, after, through);
    }
  }

  lemma {:induction false} DivideLast(a: Arithmetic, x: Float, ratios: seq<Float>, last: Float)
    ensures DivideEach(a, x, ratios + [last]) == a.divide(DivideEach(a, x, ratios), last)
    decreases |ratios|
  {
    if ratios == [] {
      assert [last][1..] == [];
    } else {
      assert (ratios + [last])[1..] == ratios[1..] + [last] && (ratios + [last])[0] == ratios[0];
      DivideLast(a, a.divide(x, ratios[0]), ratios[1..], last);
    }
  }

  /** Adjusting split by split divides each price by exactly those ratios. */
  lemma {:induction false} AdjustMeans(a: Arithmetic, b: Bar, splits: seq<Split>, asOf: Date)
    ensures AdjustBar(a, b, splits, asOf) == OnBasis(a, b, splits, true, asOf)
    decreases |splits|
  {
    if splits != [] {
      var last := |splits| - 1;
      assert splits == splits[..last] + [splits[last]];
      AdjustMeans(a, b, splits[..last], asOf);
      ApplyingLast(a, splits[..last], splits[last], b.date, asOf);
      hide Applying, DivideEach;
      OneMoreRatio(a, b, Applying(a, splits[..last], b.date, asOf), splits[last].ratio);
      assert Applying(a, splits[..last], b.date, asOf) + [] == Applying(a, splits[..last], b.date, asOf);
    }
  }

  lemma OneMoreRatio(a: Arithmetic, b: Bar, ratios: seq<Float>, last: Float)
    ensures forall x: Float :: x in {b.open, b.high, b.low, b.close} ==>
              DivideEach(a, x, ratios + [last]) == a.divide(DivideEach(a, x, ratios), last)
  {
    DivideLast(a, b.open, ratios, last);
    DivideLast(a, b.high, ratios, last);
    DivideLast(a, b.low, ratios, last);
    DivideLast(a, b.close, ratios, last);
  }

  lemma SlotMeans(reg: Registry, inst: Stored, adjusted: bool, d: Date, i: nat)
    requires i < |inst.Dates()|
    ensures var stored := BarOn(inst.bars, inst.Dates()[i]);
            Slots(reg, inst, adjusted, d)[i]
            == if stored.None? then None else Some(OnBasis(reg.arithmetic, stored.value, inst.splits, adjusted, d))
  {
    hide Slots, AdjustBar, Stored.Dates;
    SlotIs(reg, inst, adjusted, d, i);
    var stored := BarOn(inst.bars, inst.Dates()[i]);
    if adjusted && stored.Some? { AdjustMeans(reg.arithmetic, stored.value, inst.splits, d); }
  }

  // ---- A row ----------------------------------------------------------------------------------

  ghost predicate StoredThroughout(inst: Stored, from: int, to: int) {
    forall i :: from <= i <= to && 0 <= i < |inst.Dates()| ==> BarOn(inst.bars, inst.Dates()[i]).Some?
  }

  ghost predicate NothingStoredBy(inst: Stored, to: int) {
    forall i :: 0 <= i <= to && i < |inst.Dates()| ==> BarOn(inst.bars, inst.Dates()[i]).None?
  }

  /** A session's own bar, on the definition's basis at the date. */
  ghost predicate IsBar(reg: Registry, inst: Stored, definition: Definition, d: Date, i: nat, bar: Bar) {
    && i < |inst.Dates()| && BarOn(inst.bars, inst.Dates()[i]).Some?
    && bar == OnBasis(reg.arithmetic, BarOn(inst.bars, inst.Dates()[i]).value, inst.splits, definition.adjusted, d)
  }

  ghost predicate AreBars(reg: Registry, inst: Stored, definition: Definition, d: Date, start: nat, bars: seq<Bar>) {
    forall k :: 0 <= k < |bars| ==> IsBar(reg, inst, definition, d, start + k, bars[k])
  }

  /** The composites a reader reads: those of the window's sessions from the second on. */
  ghost predicate AreComposites(inst: Stored, series: Series, start: nat, values: seq<CompositeValue>) {
    forall k :: 0 <= k < |values| ==>
      start + 1 + k < |inst.Dates()|
      && var session := inst.Dates()[start + 1 + k];
         values[k] == if session in series then series[session] else CompositeValue(None, 0)
  }

  /** A row of a full table: where every session of the window has a bar, the formula of those
      bars and composites; else too little history if nothing is stored by the window's first
      session, or there is no such session; else a gap. */
  lemma RowMeans(reg: Registry, inst: Stored, definition: Definition, d: Date, series: Series)
    requires definition in reg.active && definition.window >= 1
    requires Ascending(inst.calendar) && d in inst.Dates() && BarOn(inst.bars, d).Some?
    ensures (definition, d) in FullTable(reg, inst, series)
    ensures var row, e := FullTable(reg, inst, series)[(definition, d)], Position(inst.Dates(), d);
            var start := e - definition.window + 1;
            if start >= 0 && StoredThroughout(inst, start, e)
            then exists bars, values ::
                   && |bars| == definition.window && AreBars(reg, inst, definition, d, start, bars)
                   && |values| == (if definition.usesComposite then definition.window - 1 else 0)
                   && AreComposites(inst, series, start, values)
                   && row == reg.compute(definition, bars, values)
            else row == Missing(if start < 0 || NothingStoredBy(inst, start) then InsufficientHistory else WindowGap)
  {
    hide FullTable, WindowAt, BarOn, Stored.Dates, StoredThroughout, NothingStoredBy, AreBars, AreComposites;
    InFullTable(reg, inst, series, definition, d);
    WindowCases(reg, inst, definition, d);
    var start := Position(inst.Dates(), d) - definition.window + 1;
    if start >= 0 && StoredThroughout(inst, start, Position(inst.Dates(), d)) {
      SatisfiedRow(reg, inst, definition, d, series, start);
    }
  }

  /** And there is a row for every active definition at every session with a bar, and no other. */
  lemma RowsOfFull(reg: Registry, inst: Stored, series: Series, definition: Definition, d: Date)
    ensures (definition, d) in FullTable(reg, inst, series)
       <==> definition in reg.active && d in inst.Dates() && BarOn(inst.bars, d).Some?
  {
    hide CellAt, BarOn;
    assert (definition, d) in FullTable(reg, inst, series) <==> (definition, d) in FullKeys(reg, inst);
  }

  lemma WindowCases(reg: Registry, inst: Stored, definition: Definition, d: Date)
    requires definition.window >= 1 && d in inst.Dates() && BarOn(inst.bars, d).Some?
    ensures var e := Position(inst.Dates(), d);
            var start, window := e - definition.window + 1, WindowAt(reg, inst, definition, d);
            if start >= 0 && StoredThroughout(inst, start, e) then window.Satisfied?
            else window == Absent(if start < 0 || NothingStoredBy(inst, start) then InsufficientHistory else WindowGap)
  {
    hide Slots, BarOn, Stored.Dates, OnBasis, StoredThroughout, NothingStoredBy, Values, Full, NothingThrough;
    var e := Position(inst.Dates(), d);
    var start := e - definition.window + 1;
    var slots := Slots(reg, inst, definition.adjusted, d);
    forall i | 0 <= i < |slots| ensures slots[i].Some? <==> BarOn(inst.bars, inst.Dates()[i]).Some? {
      SlotMeans(reg, inst, definition.adjusted, d, i);
    }
    SlotsTell(inst, slots, start, e);
    if start >= 0 && StoredThroughout(inst, start, e) { SomethingStored(inst, start, e); }
  }

  lemma SomethingStored(inst: Stored, start: nat, e: nat)
    requires start <= e < |inst.Dates()| && StoredThroughout(inst, start, e)
    ensures !NothingStoredBy(inst, start)
  {
    hide BarOn, Stored.Dates;
    assert BarOn(inst.bars, inst.Dates()[start]).Some?;
  }

  lemma SlotsTell(inst: Stored, slots: seq<Option<Bar>>, start: int, e: nat)
    requires |slots| == |inst.Dates()| && start <= e
    requires forall i :: 0 <= i < |slots| ==> (slots[i].Some? <==> BarOn(inst.bars, inst.Dates()[i]).Some?)
    ensures Full(slots, start, e + 1) <==> StoredThroughout(inst, start, e)
    ensures NothingThrough(slots, start) <==> NothingStoredBy(inst, start)
  {
    hide BarOn, Stored.Dates;
    if Full(slots, start, e + 1) {
      forall i | start <= i <= e && 0 <= i < |inst.Dates()| ensures BarOn(inst.bars, inst.Dates()[i]).Some? {
        assert slots[i].Some?;
      }
    }
    if NothingThrough(slots, start) {
      forall i | 0 <= i <= start && i < |inst.Dates()| ensures BarOn(inst.bars, inst.Dates()[i]).None? {
        assert slots[i].None?;
      }
    }
  }

  lemma SatisfiedRow(reg: Registry, inst: Stored, definition: Definition, d: Date, series: Series, start: nat)
    requires definition.window >= 1 && d in inst.Dates() && WindowAt(reg, inst, definition, d).Satisfied?
    requires start == Position(inst.Dates(), d) - definition.window + 1
    ensures exists bars, values ::
              && |bars| == definition.window && AreBars(reg, inst, definition, d, start, bars)
              && |values| == (if definition.usesComposite then definition.window - 1 else 0)
              && AreComposites(inst, series, start, values)
              && CellAt(reg, inst, definition, d, series) == reg.compute(definition, bars, values)
  {
    hide WindowAt, BarOn, Stored.Dates, OnBasis, AreBars, AreComposites, SeriesOver;
    var bars := WindowAt(reg, inst, definition, d).bars;
    WindowDates(reg, inst, definition, d);
    WindowBars(reg, inst, definition, d, start);
    var values := if definition.usesComposite then SeriesOver(series, bars[1..]) else [];
    NothingRead(inst, series, start);
    if definition.usesComposite { ReadComposites(inst, series, start, bars); }
    CellOfSatisfied(reg, inst, definition, d, series, bars);
    assert AreComposites(inst, series, start, values);
  }

  lemma NothingRead(inst: Stored, series: Series, start: nat)
    ensures AreComposites(inst, series, start, [])
  {
  }

  lemma WindowBars(reg: Registry, inst: Stored, definition: Definition, d: Date, start: nat)
    requires definition.window >= 1 && d in inst.Dates() && WindowAt(reg, inst, definition, d).Satisfied?
    requires start == Position(inst.Dates(), d) - definition.window + 1
    ensures AreBars(reg, inst, definition, d, start, WindowAt(reg, inst, definition, d).bars)
  {
    hide Slots, BarOn, Stored.Dates, OnBasis;
    var bars, slots := WindowAt(reg, inst, definition, d).bars, Slots(reg, inst, definition.adjusted, d);
    forall k | 0 <= k < |bars| ensures IsBar(reg, inst, definition, d, start + k, bars[k]) {
      SlotMeans(reg, inst, definition.adjusted, d, start + k);
      assert bars[k] == slots[start + k].value;
    }
  }

  lemma ReadComposites(inst: Stored, series: Series, start: nat, bars: seq<Bar>)
    requires bars != [] && start + |bars| <= |inst.Dates()|
    requires forall k :: 0 <= k < |bars| ==> bars[k].date == inst.Dates()[start + k]
    ensures AreComposites(inst, series, start, SeriesOver(series, bars[1..]))
  {
    hide Stored.Dates;
    forall k | 0 <= k < |bars| - 1 ensures bars[1..][k].date == inst.Dates()[start + 1 + k] {
      assert bars[1..][k] == bars[k + 1];
    }
  }

  lemma CellOfSatisfied(reg: Registry, inst: Stored, definition: Definition, d: Date, series: Series, bars: seq<Bar>)
    requires d in inst.Dates() && WindowAt(reg, inst, definition, d) == Satisfied(bars) && bars != []
    ensures CellAt(reg, inst, definition, d, series)
         == reg.compute(definition, bars, if definition.usesComposite then SeriesOver(series, bars[1..]) else [])
  {
    hide WindowAt, Stored.Dates, SeriesOver;
  }

  // ---- The composite --------------------------------------------------------------------------

  /** A member's return at a session past its first: from the close of its own session before, both on the basis of the
      session. */
  ghost function ReturnAt(reg: Registry, inst: Stored, d: Date): Option<Float> {
    var e := Position(inst.Dates(), d);
    if e == 0 || e >= |inst.Dates()| then None
    else
      var was, now := BarOn(inst.bars, inst.Dates()[e - 1]), BarOn(inst.bars, d);
      if was.None? || now.None? then None
      else reg.pairReturn(OnBasis(reg.arithmetic, was.value, inst.splits, true, d).close,
                          OnBasis(reg.arithmetic, now.value, inst.splits, true, d).close)
  }

  /** It has a row there: a bar, and a return unless the session before has no bar to return from. */
  ghost predicate TakesPart(reg: Registry, inst: Stored, d: Date) {
    var e := Position(inst.Dates(), d);
    && 0 < e < |inst.Dates()| && BarOn(inst.bars, d).Some?
    && (BarOn(inst.bars, inst.Dates()[e - 1]).Some? ==> ReturnAt(reg, inst, d).Some?)
  }

  lemma ContributionMeans(reg: Registry, inst: Stored, d: Date)
    ensures var c := ContributionAt(reg, inst, d);
            && (c.Counts() <==> TakesPart(reg, inst, d))
            && (c.Contributes? <==> ReturnAt(reg, inst, d).Some?)
            && (c.Contributes? ==> ReturnAt(reg, inst, d) == Some(c.value))
  {
    hide Slots, BarOn, Stored.Dates, OnBasis;
    var e := Position(inst.Dates(), d);
    if 0 < e < |inst.Dates()| && BarOn(inst.bars, d).Some? {
      var slots := Slots(reg, inst, true, d);
      SlotMeans(reg, inst, true, d, e);
      SlotMeans(reg, inst, true, d, e - 1);
      PairOf(slots, e);
    }
  }

  lemma PairOf(slots: seq<Option<Bar>>, e: nat)
    requires 0 < e < |slots| && slots[e].Some?
    ensures var window := PlainWindow(slots, e, 2);
            if slots[e - 1].Some? then window == Satisfied([slots[e - 1].value, slots[e].value]) else window.Absent?
  {
    if slots[e - 1].Some? {
      assert Full(slots, e - 1, e + 1) && !NothingThrough(slots, e - 1);
      assert Values(slots, e - 1, e + 1) == [slots[e - 1].value, slots[e].value];
    } else {
      assert !Full(slots, e - 1, e + 1);
    }
  }

  /** The composite of a session: the mean of its members' returns there, in identifier order, and
      no value at all where none takes part or no composite is published. */
  lemma SeriesMeans(reg: Registry, universe: Universe, d: Date)
    ensures d in SeriesOf(reg, universe)
            <==> reg.hasComposite && exists id :: id in universe && TakesPart(reg, universe[id], d)
    ensures d in SeriesOf(reg, universe) ==>
              SeriesOf(reg, universe)[d]
              == MeanOf(reg.floats, reg.minimum,
                        map id | id in universe && ReturnAt(reg, universe[id], d).Some? ::
                          ReturnAt(reg, universe[id], d).value)
  {
    hide ContributionAt, TakesPart, ReturnAt, MeanOf;
    forall id | id in universe
      ensures var c := ContributionAt(reg, universe[id], d);
              && (c.Counts() <==> TakesPart(reg, universe[id], d))
              && (c.Contributes? <==> ReturnAt(reg, universe[id], d).Some?)
              && (c.Contributes? ==> ReturnAt(reg, universe[id], d) == Some(c.value))
    {
      ContributionMeans(reg, universe[id], d);
    }
    RowIsSession(reg, universe, d);
    if id :| id in universe && TakesPart(reg, universe[id], d) { assert CountsFor(reg, universe, id, d); }
    if HasRow(reg, universe, d) {
      var id :| CountsFor(reg, universe, id, d);
      assert TakesPart(reg, universe[id], d);
    }
    var m := map id | id in universe && ReturnAt(reg, universe[id], d).Some? :: ReturnAt(reg, universe[id], d).value;
    assert Contributors(reg, universe, d) == m;
  }
}

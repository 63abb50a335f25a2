/** One instrument's bars aligned to its calendar: the run-length index behind a
    window, and the cache of split-adjusted views. */
module FeatureHistory {
  import opened Prelude
  import opened FeatureCalendar

  /** A float64, as its bits. What arithmetic does to it is a parameter. */
  type Float = int

  /** An instrument's identifier, ordered as its text is. */
  type Id = int

  datatype Bar = Bar(date: Date, open: Float, high: Float, low: Float, close: Float, volume: int)

  datatype Reason = InsufficientHistory | WindowGap | CompositeUndefined | ZeroDenominator

  /** No observation at all, a stated reason, or the bars of a satisfied window. */
  datatype WindowResult = NoObservation | Absent(reason: Reason) | Satisfied(bars: seq<Bar>)

  // ---- The plain definitions ------------------------------------------------------------------

  /** The stored bar of a date: the last one given for it. */
  function BarOn(bars: seq<Bar>, d: Date): (b: Option<Bar>)
    ensures b.Some? ==> b.value in bars && b.value.date == d
    decreases |bars|
  {
    if bars == [] then None
    else if bars[|bars| - 1].date == d then Some(bars[|bars| - 1])
    else BarOn(bars[..|bars| - 1], d)
  }

  /** A date's bar is the last one given with that date; none is there only if none was given. */
  lemma {:induction false} BarOnMeans(bars: seq<Bar>, d: Date)
    ensures BarOn(bars, d).None? <==> forall b :: b in bars ==> b.date != d
    ensures BarOn(bars, d).Some? ==>
              exists i :: 0 <= i < |bars| && bars[i] == BarOn(bars, d).value && bars[i].date == d
                          && forall j :: i < j < |bars| ==> bars[j].date != d
    decreases |bars|
  {
    if bars != [] {
      var last := |bars| - 1;
      BarOnMeans(bars[..last], d);
      assert forall b :: b in bars <==> b in bars[..last] || b == bars[last];
      if bars[last].date != d && BarOn(bars[..last], d).Some? {
        var i :| 0 <= i < last && bars[..last][i] == BarOn(bars[..last], d).value && bars[..last][i].date == d
          && forall j :: i < j < last ==> bars[..last][j].date != d;
        forall j | i < j < |bars| ensures bars[j].date != d { if j < last { assert bars[..last][j] == bars[j]; } }
        assert bars[i] == BarOn(bars, d).value;
      }
    }
  }

  function Aligned(bars: seq<Bar>, dates: seq<Date>): (a: seq<Option<Bar>>)
    ensures |a| == |dates| && forall i :: 0 <= i < |a| ==> a[i] == BarOn(bars, dates[i])
  {
    seq(|dates|, i requires 0 <= i < |dates| => BarOn(bars, dates[i]))
  }

  ghost predicate Full(slots: seq<Option<Bar>>, from: int, to: int) {
    forall i :: from <= i < to && 0 <= i < |slots| ==> slots[i].Some?
  }

  ghost predicate NothingThrough(slots: seq<Option<Bar>>, to: int) {
    forall i :: 0 <= i <= to && i < |slots| ==> slots[i].None?
  }

  /** The n sessions ending at e, defined by looking at each of them: nothing without a
      bar at e; too little history when no bar is stored by the window's first session;
      a gap when a session inside lacks one; else the bars. */
  ghost function PlainWindow(slots: seq<Option<Bar>>, e: int, n: int): WindowResult
    requires e < |slots|
  {
    var start := e - n + 1;
    if e < 0 || n <= 0 || slots[e].None? then NoObservation
    else if start < 0 || NothingThrough(slots, start) then Absent(InsufficientHistory)
    else if !Full(slots, start, e + 1) then Absent(WindowGap)
    else Satisfied(Values(slots, start, e + 1))
  }

  ghost function Values(slots: seq<Option<Bar>>, from: int, to: int): (bars: seq<Bar>)
    requires 0 <= from <= to <= |slots| && Full(slots, from, to)
    ensures |bars| == to - from && forall k :: 0 <= k < to - from ==> bars[k] == slots[from + k].value
  {
    seq(to - from, k requires 0 <= k < to - from => slots[from + k].value)
  }

  // ---- The index ------------------------------------------------------------------------------

  datatype History = History(dates: seq<Date>, index: map<Date, nat>, slots: seq<Option<Bar>>, runStart: seq<int>,
                             first: int)

  /** Where the gap-free run a stored session belongs to began; -1 where no bar is stored. */
  ghost predicate RunStartsAt(slots: seq<Option<Bar>>, i: nat, start: int)
    requires i < |slots|
  {
    if slots[i].None? then start == -1
    else 0 <= start <= i && Full(slots, start, i + 1) && (start > 0 ==> slots[start - 1].None?)
  }

  ghost predicate FirstIs(slots: seq<Option<Bar>>, first: int) {
    if first < 0 then first == -1 && NothingThrough(slots, |slots|)
    else first < |slots| && slots[first].Some? && NothingThrough(slots, first - 1)
  }

  ghost predicate IndexesDates(index: map<Date, nat>, dates: seq<Date>) {
    && (forall i :: 0 <= i < |dates| ==> dates[i] in index && index[dates[i]] == i)
    && (forall d :: d in index ==> index[d] < |dates| && dates[index[d]] == d)
  }

  ghost predicate Indexes(h: History, bars: seq<Bar>, calendar: seq<Session>) {
    && h.dates == Trading(calendar)
    && IndexesDates(h.index, h.dates)
    && h.slots == Aligned(bars, h.dates)
    && |h.runStart| == |h.dates|
    && (forall i :: 0 <= i < |h.dates| ==> RunStartsAt(h.slots, i, h.runStart[i]))
    && FirstIs(h.slots, h.first)
  }

  /** Aligns bars to the calendar; bars on other dates are ignored. */
  method NewHistory(bars: seq<Bar>, calendar: seq<Session>) returns (h: History)
    requires Ascending(calendar)
    ensures Indexes(h, bars, calendar)
  {
    var dates, index := IndexCalendar(calendar);
    var slots := PlaceBars(bars, dates, index);
    var runStart, first := FindRuns(slots);
    h := History(dates, index, slots, runStart, first);
  }

  method IndexCalendar(calendar: seq<Session>) returns (dates: seq<Date>, index: map<Date, nat>)
    requires Ascending(calendar)
    ensures dates == Trading(calendar) && IndexesDates(index, dates) && AscendingDates(dates)
  {
    hide Trading;
    dates, index := [], map[];
    EmptyTrading();
    assert calendar[..0] == [];
    for k := 0 to |calendar|
      invariant dates == Trading(calendar[..k]) && IndexesDates(index, dates)
    {
      TradingStep(calendar, k);
      TradingBefore(calendar, k);
      assert dates + [] == dates;
      if calendar[k].IsSession() {
        index := index[calendar[k].date := |dates|];
        dates := dates + [calendar[k].date];
      }
    }
    assert calendar[..|calendar|] == calendar;
    TradingAscends(calendar);
  }

  lemma EmptyTrading()
    ensures Trading([]) == []
  {
  }

  method PlaceBars(bars: seq<Bar>, dates: seq<Date>, index: map<Date, nat>) returns (slots: seq<Option<Bar>>)
    requires IndexesDates(index, dates)
    ensures slots == Aligned(bars, dates)
  {
    var placed := new Option<Bar>[|dates|](_ => None);
    for k := 0 to |bars|
      invariant forall i :: 0 <= i < |dates| ==> placed[i] == BarOn(bars[..k], dates[i])
    {
      assert bars[..k + 1][..k] == bars[..k];
      if bars[k].date in index {
        placed[index[bars[k].date]] := Some(bars[k]);
      }
    }
    assert bars[..|bars|] == bars;
    slots := placed[..];
  }

  method FindRuns(slots: seq<Option<Bar>>) returns (runStart: seq<int>, first: int)
    ensures |runStart| == |slots| && forall i :: 0 <= i < |slots| ==> RunStartsAt(slots, i, runStart[i])
    ensures FirstIs(slots, first)
  {
    var starts := new int[|slots|];
    first := -1;
    for i := 0 to |slots|
      invariant forall j :: 0 <= j < i ==> RunStartsAt(slots, j, starts[j])
      invariant if first < 0 then first == -1 && NothingThrough(slots, i - 1)
                else first < i && slots[first].Some? && NothingThrough(slots, first - 1)
    {
      if slots[i].None? {
        starts[i] := -1;
      } else if i > 0 && slots[i - 1].Some? {
        starts[i] := starts[i - 1];
      } else {
        starts[i] := i;
      }
      if slots[i].Some? && first < 0 {
        first := i;
      }
    }
    runStart := starts[..];
  }

  /** The window by the index: two comparisons decide what looking at every session would. */
  method Window(h: History, ghost bars: seq<Bar>, ghost calendar: seq<Session>, end: Date, n: int)
    returns (r: WindowResult)
    requires Indexes(h, bars, calendar)
    ensures end !in h.dates ==> r == NoObservation
    ensures end in h.dates ==> r == PlainWindow(Aligned(bars, Trading(calendar)), h.index[end], n)
  {
    hide Trading, Aligned;
    if end !in h.index || h.slots[h.index[end]].None? || n <= 0 {
      return NoObservation;
    }
    var e := h.index[end];
    var start := e - n + 1;
    if start < 0 || start < h.first {
      return Absent(InsufficientHistory);
    }
    assert !NothingThrough(h.slots, start) by { assert h.slots[h.first].Some?; }
    if h.runStart[e] > start {
      GapBeforeRun(h.slots, e, h.runStart[e], start);
      return Absent(WindowGap);
    }
    assert Full(h.slots, start, e + 1);
    var out: seq<Bar> := [];
    for i := start to e + 1
      invariant out == Values(h.slots, start, i)
    {
      out := out + [h.slots[i].value];
    }
    r := Satisfied(out);
  }

  lemma GapBeforeRun(slots: seq<Option<Bar>>, e: nat, runStart: int, start: int)
    requires e < |slots| && slots[e].Some? && RunStartsAt(slots, e, runStart) && 0 <= start < runStart
    ensures !Full(slots, start, e + 1)
  {
    assert slots[runStart - 1].None?;
  }

  // ---- Split adjustment -----------------------------------------------------------------------

  datatype Split = Split(exDate: Date, ratio: Float)

  /** Division of floats and the test for a zero ratio. */
  datatype Arithmetic = Arithmetic(divide: (Float, Float) -> Float, isZero: Float -> bool)
  {
    function Divided(b: Bar, ratio: Float): Bar {
      b.(open := divide(b.open, ratio), high := divide(b.high, ratio), low := divide(b.low, ratio),
        close := divide(b.close, ratio))
    }
  }

  /** One bar on the basis known at a date: every split gone ex by then divides the bars before it. */
  function AdjustBar(a: Arithmetic, b: Bar, splits: seq<Split>, asOf: Date): (r: Bar)
    ensures r.date == b.date && r.volume == b.volume
    decreases |splits|
  {
    if splits == [] then b
    else
      var split := splits[|splits| - 1];
      var before := AdjustBar(a, b, splits[..|splits| - 1], asOf);
      if split.exDate > asOf || a.isZero(split.ratio) || b.date >= split.exDate then before
      else a.Divided(before, split.ratio)
  }

  function Adjusted(a: Arithmetic, bars: seq<Bar>, splits: seq<Split>, asOf: Date): (r: seq<Bar>)
    ensures |r| == |bars| && forall i :: 0 <= i < |bars| ==> r[i] == AdjustBar(a, bars[i], splits, asOf)
  {
    seq(|bars|, i requires 0 <= i < |bars| => AdjustBar(a, bars[i], splits, asOf))
  }

  lemma AdjustStep(a: Arithmetic, b: Bar, splits: seq<Split>, k: nat, asOf: Date)
    requires k < |splits|
    ensures var before := AdjustBar(a, b, splits[..k], asOf);
            AdjustBar(a, b, splits[..k + 1], asOf)
            == if splits[k].exDate > asOf || a.isZero(splits[k].ratio) || b.date >= splits[k].exDate then before
               else a.Divided(before, splits[k].ratio)
  {
    assert splits[..k + 1][..k] == splits[..k];
  }

  lemma AdjustNone(a: Arithmetic, b: Bar, asOf: Date)
    ensures AdjustBar(a, b, [], asOf) == b
  {
  }

  /** Adjusted as it runs: a copy, divided in place split by split. */
  method AdjustedCopy(a: Arithmetic, bars: seq<Bar>, splits: seq<Split>, asOf: Date) returns (r: seq<Bar>)
    ensures r == Adjusted(a, bars, splits, asOf)
  {
    hide AdjustBar;
    var out := new Bar[|bars|](i requires 0 <= i < |bars| => bars[i]);
    assert splits[..0] == [];
    forall i | 0 <= i < |bars| { AdjustNone(a, bars[i], asOf); }
    for k := 0 to |splits|
      invariant forall i :: 0 <= i < |bars| ==> out[i] == AdjustBar(a, bars[i], splits[..k], asOf)
    {
      var split := splits[k];
      forall i | 0 <= i < |bars| { AdjustStep(a, bars[i], splits, k, asOf); }
      if split.exDate > asOf || a.isZero(split.ratio) {
        continue;
      }
      DivideEarlier(a, out, split);
    }
    assert splits[..|splits|] == splits;
    r := out[..];
  }

  /** One split's pass over the copied bars. */
  method DivideEarlier(a: Arithmetic, out: array<Bar>, split: Split)
    modifies out
    ensures forall i :: 0 <= i < out.Length ==>
              out[i] == if old(out[i]).date < split.exDate then a.Divided(old(out[i]), split.ratio) else old(out[i])
  {
    for j := 0 to out.Length
      invariant forall i :: 0 <= i < j ==>
                  out[i] == if old(out[i]).date < split.exDate then a.Divided(old(out[i]), split.ratio) else old(out[i])
      invariant forall i :: j <= i < out.Length ==> out[i] == old(out[i])
    {
      if out[j].date < split.exDate {
        out[j] := a.Divided(out[j], split.ratio);
      }
    }
  }

  ghost predicate ByExDate(splits: seq<Split>) {
    forall i, j :: 0 <= i <= j < |splits| ==> splits[i].exDate <= splits[j].exDate
  }

  /** How many splits have gone ex by a date. */
  function Applied(splits: seq<Split>, session: Date): (n: nat)
    ensures n <= |splits|
    decreases |splits|
  {
    if splits == [] then 0
    else Applied(splits[..|splits| - 1], session) + (if splits[|splits| - 1].exDate <= session then 1 else 0)
  }

  /** In ex-date order, the splits gone ex are the first so many. */
  lemma {:induction false} AppliedAreFirst(splits: seq<Split>, session: Date)
    requires ByExDate(splits)
    ensures forall i :: 0 <= i < |splits| ==> (i < Applied(splits, session) <==> splits[i].exDate <= session)
    decreases |splits|
  {
    if splits != [] {
      AppliedAreFirst(splits[..|splits| - 1], session);
    }
  }

  /** Only the splits gone ex take part, and it does not matter as of which date they are read. */
  lemma {:induction false} AdjustBarByCount(a: Arithmetic, b: Bar, splits: seq<Split>, asOf: Date, applied: nat,
                                            other: Date, k: nat)
    requires applied <= k <= |splits|
    requires forall i :: 0 <= i < |splits| ==> (i < applied <==> splits[i].exDate <= asOf)
    requires forall i :: 0 <= i < applied ==> splits[i].exDate <= other
    ensures AdjustBar(a, b, splits[..k], asOf) == AdjustBar(a, b, splits[..applied], other)
    decreases k
  {
    if k > applied {
      assert splits[..k][..k - 1] == splits[..k - 1];
      AdjustBarByCount(a, b, splits, asOf, applied, other, k - 1);
    } else if k > 0 {
      assert splits[..k][..k - 1] == splits[..k - 1];
      AdjustBarSameDates(a, b, splits[..k], asOf, other);
    }
  }

  lemma {:induction false} AdjustBarSameDates(a: Arithmetic, b: Bar, splits: seq<Split>, asOf: Date, other: Date)
    requires forall i :: 0 <= i < |splits| ==> splits[i].exDate <= asOf && splits[i].exDate <= other
    ensures AdjustBar(a, b, splits, asOf) == AdjustBar(a, b, splits, other)
    decreases |splits|
  {
    if splits != [] { AdjustBarSameDates(a, b, splits[..|splits| - 1], asOf, other); }
  }

  /** The first `applied` splits give, as of a session, what all of them give as of any
      session with the same number gone ex. */
  lemma AdjustedByCount(a: Arithmetic, bars: seq<Bar>, splits: seq<Split>, session: Date, other: Date)
    requires ByExDate(splits) && Applied(splits, session) == Applied(splits, other)
    ensures var n := Applied(splits, session);
            Adjusted(a, bars, splits[..n], session) == Adjusted(a, bars, splits, other)
  {
    var n := Applied(splits, session);
    AppliedAreFirst(splits, session);
    AppliedAreFirst(splits, other);
    assert splits[..|splits|] == splits;
    forall i | 0 <= i < |bars|
      ensures AdjustBar(a, bars[i], splits[..n], session) == AdjustBar(a, bars[i], splits, other)
    {
      AdjustBarByCount(a, bars[i], splits, other, n, session, |splits|);
    }
  }

  /** One instrument's stored history, with the adjusted views it has been asked for. */
  class MemberHistory {
    const arithmetic: Arithmetic
    const calendar: seq<Session>
    const bars: seq<Bar>
    const splits: seq<Split>
    const raw: History
    var adjusted: map<nat, History>

    /** A cached view serves every session with that many splits gone ex. */
    ghost predicate Valid()
      reads this
    {
      && Ascending(calendar) && ByExDate(splits) && Indexes(raw, bars, calendar)
      && forall n, s :: n in adjusted && Applied(splits, s) == n ==>
           Indexes(adjusted[n], Adjusted(arithmetic, bars, splits, s), calendar)
    }

    constructor (arithmetic: Arithmetic, bars: seq<Bar>, splits: seq<Split>, calendar: seq<Session>)
      requires Ascending(calendar) && ByExDate(splits)
      ensures Valid() && this.arithmetic == arithmetic && this.bars == bars && this.splits == splits
              && this.calendar == calendar
    {
      var h := NewHistory(bars, calendar);
      this.arithmetic, this.bars, this.splits, this.calendar := arithmetic, bars, splits, calendar;
      raw, adjusted := h, map[];
    }

    /** The view at a session, from the cache or built into it: whatever was asked
        before, it indexes the bars adjusted by every split as of that session. */
    method AdjustedAt(session: Date) returns (view: History)
      requires Valid()
      modifies this
      ensures Valid()
      ensures Indexes(view, Adjusted(arithmetic, bars, splits, session), calendar)
    {
      hide Indexes, AdjustBar, Applied;
      var applied := CountApplied(session);
      if applied == 0 {
        NoneApplied(arithmetic, bars, splits, session);
        return raw;
      }
      if applied in adjusted {
        return adjusted[applied];
      }
      var basis := AdjustedCopy(arithmetic, bars, splits[..applied], session);
      view := NewHistory(basis, calendar);
      forall s | Applied(splits, s) == applied ensures basis == Adjusted(arithmetic, bars, splits, s) {
        AdjustedByCount(arithmetic, bars, splits, session, s);
      }
      adjusted := adjusted[applied := view];
    }

    method CountApplied(session: Date) returns (applied: nat)
      ensures applied == Applied(splits, session)
    {
      applied := 0;
      for k := 0 to |splits|
        invariant applied == Applied(splits[..k], session)
      {
        assert splits[..k + 1][..k] == splits[..k];
        if splits[k].exDate <= session {
          applied := applied + 1;
        }
      }
      assert splits[..|splits|] == splits;
    }
  }

  lemma NoneApplied(a: Arithmetic, bars: seq<Bar>, splits: seq<Split>, session: Date)
    requires ByExDate(splits) && Applied(splits, session) == 0
    ensures Adjusted(a, bars, splits, session) == bars
  {
    AdjustedByCount(a, bars, splits, session, session);
    assert splits[..0] == [];
  }
}

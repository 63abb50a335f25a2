/** Members on calendars of their own, touched on dates of their own: when each one's scope
    reaches every row that reads a changed composite, and what happens when it does not. */
module FeatureReach {
  import opened Prelude
  import opened FeatureCalendar
  import opened FeatureHistory
  import opened CompositeMean
  import opened FeatureRuns
  import opened FeatureComposite

  // ---- What a reader can see, and what its member's scope reaches ------------------------------

  /** A window of w sessions ending at position e reads the composite at position i, where it may change. */
  ghost predicate SeenAt(after: Universe, touched: map<Id, set<Date>>, dates: seq<Date>, w: nat, e: int, i: int) {
    1 <= i <= e && e - w + 2 <= i < |dates| && MayChange(after, touched, dates[i])
  }

  ghost predicate Sees(after: Universe, touched: map<Id, set<Date>>, dates: seq<Date>, w: nat, d: Date) {
    exists i :: SeenAt(after, touched, dates, w, Position(dates, d), i)
  }

  /** A touched member's scope runs over its own span and reach, any other's over the span of
      all that was touched and the reach of the longest reader. */
  ghost predicate InReach(dates: seq<Date>, touched: Option<set<Date>>, plan: Plan, d: Date) {
    match touched
    case None => plan.earliest <= d <= ReachTo(dates, plan.latest, plan.usersWindow)
    case Some(sessions) =>
      exists first, last :: Spans(sessions, first, last) && first <= d <= ReachTo(dates, last, plan.wMax)
  }

  /** Every stored session at which the longest reader would see a change lies in the reach. All
      of it can be read off the calendars and the touched dates. */
  ghost predicate Reaches(after: Universe, touched: map<Id, set<Date>>, plan: Plan, id: Id)
    requires id in after
  {
    forall d :: after[id].Trades(d) && Sees(after, touched, after[id].Dates(), plan.usersWindow, d) ==>
      InReach(after[id].Dates(), TouchedIn(touched, id), plan, d)
  }

  // ---- It is enough ---------------------------------------------------------------------------

  /** Then the member's scope covers its readers, whatever they compute. */
  lemma ReachesCovers(reg: Registry, after: Universe, touched: map<Id, set<Date>>, plan: Plan, id: Id)
    requires Ordinary(after) && id in after && Reaches(after, touched, plan, id)
    requires Windows(reg, plan.wMax) && UsersWindow(reg, plan.usersWindow)
    requires id in touched ==> InDates(after[id], touched[id])
    ensures MemberCovered(reg, after, touched, plan, id)
  {
    hide WindowAt, ReachTo, Reaches, MayChange, BarOn, Stored.Dates, Stored.Trades, ReadersCovered;
    var inst := after[id];
    if inst.bars != [] {
      if id in touched {
        forall first, last | Spans(touched[id], first, last)
          ensures ReadersCovered(reg, after, touched, inst, TouchedScope(reg, inst, first, last, plan.wMax))
        {
          ReachCoversReaders(reg, after, touched, plan, id, TouchedScope(reg, inst, first, last, plan.wMax));
        }
      } else {
        ReachCoversReaders(reg, after, touched, plan, id,
                           OtherScope(reg, inst, plan.earliest, plan.latest, plan.usersWindow));
      }
    }
  }

  /** The scope one of the two kinds of member gets. */
  ghost predicate IsScopeOf(reg: Registry, inst: Stored, touched: Option<set<Date>>, plan: Plan, sc: Scope)
    requires inst.bars != []
  {
    match touched
    case None => sc == OtherScope(reg, inst, plan.earliest, plan.latest, plan.usersWindow)
    case Some(sessions) =>
      exists first, last :: Spans(sessions, first, last) && sc == TouchedScope(reg, inst, first, last, plan.wMax)
  }

  lemma ReachCoversReaders(reg: Registry, after: Universe, touched: map<Id, set<Date>>, plan: Plan, id: Id, sc: Scope)
    requires Ordinary(after) && id in after && Reaches(after, touched, plan, id) && after[id].bars != []
    requires Windows(reg, plan.wMax) && UsersWindow(reg, plan.usersWindow)
    requires IsScopeOf(reg, after[id], TouchedIn(touched, id), plan, sc)
    ensures ReadersCovered(reg, after, touched, after[id], sc)
  {
    hide WindowAt, ReachTo, ReadsUnchanged, Sees, InReach, IsScopeOf, BarOn, Stored.Dates;
    var inst := after[id];
    forall definition, d | definition in Users(reg) && d in inst.Dates() && inst.Trades(d)
                           && !InScope((definition, d), sc.from, sc.to, sc.Only())
                              && WindowAt(reg, inst, definition, d).Satisfied?
      ensures ReadsUnchanged(after, touched, inst, definition, d)
    {
      if InReach(inst.Dates(), TouchedIn(touched, id), plan, d) {
        ReachIsInScope(reg, inst, TouchedIn(touched, id), plan, sc, definition, d);
      }
      UnseenIsUnchanged(reg, after, touched, plan.usersWindow, inst, definition, d);
    }
  }

  lemma ReachIsInScope(reg: Registry, inst: Stored, touched: Option<set<Date>>, plan: Plan, sc: Scope,
                       definition: Definition, d: Date)
    requires BarsAscending(inst.bars) && inst.bars != [] && inst.Trades(d) && definition in Users(reg)
    requires IsScopeOf(reg, inst, touched, plan, sc)
    ensures InReach(inst.Dates(), touched, plan, d) <==> InScope((definition, d), sc.from, sc.to, sc.Only())
  {
    hide ReachTo, Stored.Dates;
    LastBarIsLast(inst.bars, d);
    if touched.Some? {
      forall a, b, x, y | Spans(touched.value, a, b) && Spans(touched.value, x, y) ensures a == x && b == y { }
    }
  }

  lemma UnseenIsUnchanged(reg: Registry, after: Universe, touched: map<Id, set<Date>>, w: nat, inst: Stored,
                          definition: Definition, d: Date)
    requires d in inst.Dates() && 1 <= definition.window <= w && !Sees(after, touched, inst.Dates(), w, d)
    requires WindowAt(reg, inst, definition, d).Satisfied?
    ensures ReadsUnchanged(after, touched, inst, definition, d)
  {
    hide WindowAt, MayChange, Stored.Dates;
    WindowDates(reg, inst, definition, d);
    var dates := inst.Dates();
    var e := Position(dates, d);
    forall i | e - definition.window + 2 <= i <= e && 0 <= i ensures !MayChange(after, touched, dates[i]) {
      assert !SeenAt(after, touched, dates, w, e, i);
    }
  }

  /** Incremental equals full for a member on its own calendar, whatever the others were touched
      on: where its scope reaches, exactly when its opening is kept. */
  lemma ReachedIncrementalIsFull(reg: Registry, before: Universe, after: Universe, touched: map<Id, set<Date>>,
                                 plan: Plan, id: Id, scope: Option<Scope>)
    requires Imported(before, after, touched) && id in after && Reaches(after, touched, plan, id)
    requires Windows(reg, plan.wMax) && UsersWindow(reg, plan.usersWindow)
    requires id in touched ==> InDates(after[id], touched[id])
    requires ScopeFor(reg, after[id], TouchedIn(touched, id), plan, scope)
    ensures id in before
    ensures AppliedScope(reg, after[id], scope, FullTable(reg, before[id], SeriesOf(reg, before)), SeriesOf(reg, after))
            == FullTable(reg, after[id], SeriesOf(reg, after))
       <==> MemberOpeningKept(reg, before, after, touched, plan, id)
  {
    AfterIsOrdinary(before, after, touched);
    hide *;
    ReachesCovers(reg, after, touched, plan, id);
    UniverseIncrementalIsFull(reg, before, after, touched, plan, id, scope);
  }

  // ---- Guards on the dates --------------------------------------------------------------------

  /** A date is one of the member's sessions, and all its own sessions at which the composite may
      change lie from another on, at most so many positions past it. */
  ghost predicate ChangesNear(after: Universe, touched: map<Id, set<Date>>, inst: Stored, from: Date, anchor: Date,
                              past: int) {
    && anchor in inst.Dates()
    && forall c :: c in inst.Dates() && MayChange(after, touched, c) ==>
         from <= c && Position(inst.Dates(), c) <= Position(inst.Dates(), anchor) + past
  }

  /** Of an untouched member, the latest touched date must be a session, and no change more than
      one past it; of a touched one, none before its first, and none further past its last than
      its longest window exceeds the longest reader's, and one. */
  lemma NearChangesAreReached(after: Universe, touched: map<Id, set<Date>>, plan: Plan, id: Id, first: Date, last: Date)
    requires Ordinary(after) && id in after
    requires if id in touched then Spans(touched[id], first, last)
                                   && ChangesNear(after, touched, after[id], first, last,
                                                  plan.wMax - plan.usersWindow + 1)
             else ChangesNear(after, touched, after[id], plan.earliest, plan.latest, 1)
    ensures Reaches(after, touched, plan, id)
  {
    hide ChangesNear, Sees, ReachTo, Stored.Dates, BarOn;
    var inst := after[id];
    forall d | inst.Trades(d) && Sees(after, touched, inst.Dates(), plan.usersWindow, d)
      ensures InReach(inst.Dates(), TouchedIn(touched, id), plan, d)
    {
      if id in touched {
        NearIsReached(after, touched, plan.usersWindow, inst, first, last, plan.wMax, d);
      } else {
        NearIsReached(after, touched, plan.usersWindow, inst, plan.earliest, plan.latest, plan.usersWindow, d);
      }
    }
  }

  lemma NearIsReached(after: Universe, touched: map<Id, set<Date>>, usersWindow: nat, inst: Stored, from: Date,
                      anchor: Date, w: nat, d: Date)
    requires Ascending(inst.calendar) && d in inst.Dates() && Sees(after, touched, inst.Dates(), usersWindow, d)
    requires ChangesNear(after, touched, inst, from, anchor, w - usersWindow + 1)
    ensures from <= d <= ReachTo(inst.Dates(), anchor, w)
  {
    hide MayChange, ReachTo, Stored.Dates;
    var dates := inst.Dates();
    TradingDates(inst);
    var i :| SeenAt(after, touched, dates, usersWindow, Position(dates, d), i);
    PositionIs(dates, i);
    assert dates[i] in dates;
    Ordered(dates, d, i);
    NoWindowReachesAtOnce(dates, anchor);
    if d > ReachTo(dates, anchor, w) { BeyondReach(dates, anchor, if w == 0 then 1 else w, d); }
  }

  lemma NoWindowReachesAtOnce(dates: seq<Date>, at: Date)
    ensures ReachTo(dates, at, 0) == ReachTo(dates, at, 1)
  {
  }

  /** A touched member's scope that ends at its last bar reaches whatever comes no earlier than its
      first touched date. */
  lemma ToTheLastBar(after: Universe, touched: map<Id, set<Date>>, plan: Plan, id: Id, first: Date, last: Date)
    requires Ordinary(after) && id in after && id in touched && Spans(touched[id], first, last) && after[id].bars != []
    requires forall c :: c in after[id].Dates() && MayChange(after, touched, c) ==> first <= c
    requires after[id].bars[|after[id].bars| - 1].date <= ReachTo(after[id].Dates(), last, plan.wMax)
    ensures Reaches(after, touched, plan, id)
  {
    hide MayChange, ReachTo, Stored.Dates, BarOn;
    var inst := after[id];
    var dates := inst.Dates();
    TradingDates(inst);
    forall d | inst.Trades(d) && Sees(after, touched, dates, plan.usersWindow, d)
      ensures InReach(dates, TouchedIn(touched, id), plan, d)
    {
      LastBarIsLast(inst.bars, d);
      var i :| SeenAt(after, touched, dates, plan.usersWindow, Position(dates, d), i);
      assert dates[i] in dates;
      Ordered(dates, d, i);
    }
  }

  ghost predicate SharedCalendar(universe: Universe, calendar: seq<Session>) {
    Ascending(calendar) && forall id :: id in universe ==> universe[id].calendar == calendar
  }

  /** On one calendar an untouched member is always reached; a touched one is if it was touched
      first and its longest window takes its last as far as any reader's takes the latest. */
  lemma SharedCalendarReaches(after: Universe, touched: map<Id, set<Date>>, plan: Plan, calendar: seq<Session>, id: Id,
                              first: Date, last: Date)
    requires SharedCalendar(after, calendar) && Ordinary(after) && id in after
    requires Within(after, touched, plan.earliest, plan.latest) && plan.latest in Trading(calendar)
    requires id in touched ==>
               && Spans(touched[id], first, last) && last in Trading(calendar) && first == plan.earliest
               && Position(Trading(calendar), plan.latest) + plan.usersWindow
                  <= Position(Trading(calendar), last) + plan.wMax
    ensures Reaches(after, touched, plan, id)
  {
    hide MayChange, Trading, Within;
    forall c | c in Trading(calendar) && MayChange(after, touched, c)
      ensures plan.earliest <= c && Position(Trading(calendar), c) <= Position(Trading(calendar), plan.latest) + 1
    {
      ChangesInSpan(after, touched, plan, calendar, c);
    }
    NearChangesAreReached(after, touched, plan, id, first, last);
  }

  /** There the composite may change from the earliest touched session to the one after the latest. */
  lemma ChangesInSpan(after: Universe, touched: map<Id, set<Date>>, plan: Plan, calendar: seq<Session>, d: Date)
    requires SharedCalendar(after, calendar) && Within(after, touched, plan.earliest, plan.latest)
    requires plan.latest in Trading(calendar) && MayChange(after, touched, d)
    ensures d in Trading(calendar) && plan.earliest <= d
    ensures Position(Trading(calendar), d) <= Position(Trading(calendar), plan.latest) + 1
  {
    hide NearTouched, Trading;
    var id :| id in after && id in touched && NearTouched(after[id], touched[id], d);
    TradingAscends(calendar);
    var t := NearOf(after[id], touched[id], d);
    Ordered(Trading(calendar), plan.latest, Position(Trading(calendar), t));
  }

  // ---- And it is needed: bars on every session, and what the composite of them tells -----------

  type Calendars = map<Id, seq<Session>>

  /** A bar on every session, its close raised where it changed. */
  function Bars(dates: seq<Date>, raised: set<Date>): (bars: seq<Bar>)
    ensures |bars| == |dates| && forall i :: 0 <= i < |dates| ==> bars[i] == BarWith(dates[i], raised)
  {
    seq(|dates|, i requires 0 <= i < |dates| => BarWith(dates[i], raised))
  }

  function BarWith(d: Date, raised: set<Date>): Bar {
    Bar(d, 1, 1, 1, if d in raised then 2 else 1, 1)
  }

  function Throughout(calendar: seq<Session>, raised: set<Date>): Stored {
    Stored(calendar, Bars(Trading(calendar), raised), [])
  }

  /** Every member has a bar on each of its sessions, raised where it was touched. */
  ghost function Raised(calendars: Calendars, touched: map<Id, set<Date>>): Universe {
    map id | id in calendars :: Throughout(calendars[id], TouchedOf(touched, id))
  }

  ghost function Quiet(calendars: Calendars): Universe {
    Raised(calendars, map[])
  }

  /** Every touched member was touched, on sessions of its own. */
  ghost predicate OnSessions(calendars: Calendars, touched: map<Id, set<Date>>) {
    && (forall id :: id in calendars ==> Ascending(calendars[id]))
    && (forall id :: id in calendars && id in touched ==>
          touched[id] != {} && forall d :: d in touched[id] ==> d in Trading(calendars[id]))
  }

  predicate AllSteady(values: seq<CompositeValue>) {
    forall i | 0 <= i < |values| :: values[i].mean == Some(11 * values[i].contributors)
  }

  /** Two readers and one other definition; a return that tells its two closes, a composite that
      adds the returns up, and readers that tell whether any was ever anything but 11. */
  function Telling(window: nat, usersWindow: nat, wMax: nat): Registry {
    var active := {Definition(1, window, false, true), Definition(2, usersWindow, false, true),
                   Definition(3, wMax, false, false)};
    Registry(active, true, Arithmetic((a, b) => a, a => false),
             (definition, bars, values) => Computed(if AllSteady(values) then "steady" else "moved"),
             (x, y) => Some(10 * x + y), Adding(), 1)
  }

  function Adding(): Floats {
    Floats(0, (x, y) => x + y, (total, n) => total)
  }

  lemma TellingWindows(window: nat, usersWindow: nat, wMax: nat)
    requires 2 <= window <= usersWindow <= wMax
    ensures var reg := Telling(window, usersWindow, wMax);
            && Windows(reg, wMax) && IsLongest(reg.active, wMax)
            && UsersWindow(reg, usersWindow) && IsLongest(Users(reg), usersWindow)
            && Definition(1, window, false, true) in Users(reg)
  {
    assert Definition(2, usersWindow, false, true) in Users(Telling(window, usersWindow, wMax));
    assert Definition(3, wMax, false, false) in Telling(window, usersWindow, wMax).active;
  }

  lemma {:induction false} BarsOn(dates: seq<Date>, raised: set<Date>, d: Date)
    ensures BarOn(Bars(dates, raised), d) == if d in dates then Some(BarWith(d, raised)) else None
    decreases |dates|
  {
    if dates != [] {
      var last := |dates| - 1;
      BarsOn(dates[..last], raised, d);
      assert Bars(dates, raised)[..last] == Bars(dates[..last], raised);
      assert d in dates <==> d in dates[..last] || d == dates[last];
    }
  }

  lemma ThroughoutTrades(calendar: seq<Session>, raised: set<Date>, d: Date)
    ensures Throughout(calendar, raised).Dates() == Trading(calendar)
    ensures Throughout(calendar, raised).Trades(d) <==> d in Trading(calendar)
    ensures Trading(calendar) != [] ==> Throughout(calendar, raised).bars != []
  {
    hide Trading, Bars;
    BarsOn(Trading(calendar), raised, d);
  }

  lemma ThroughoutIsUpdated(calendar: seq<Session>, raised: set<Date>)
    requires Ascending(calendar) && forall d :: d in raised ==> d in Trading(calendar)
    ensures Updated(Throughout(calendar, {}), Throughout(calendar, raised), raised)
    ensures BarsAscending(Throughout(calendar, raised).bars)
  {
    hide Trading;
    TradingAscends(calendar);
    forall d
      ensures BarOn(Throughout(calendar, {}).bars, d) == (if d in Trading(calendar) then Some(BarWith(d, {})) else None)
      ensures BarOn(Throughout(calendar, raised).bars, d)
              == (if d in Trading(calendar) then Some(BarWith(d, raised)) else None)
    {
      BarsOn(Trading(calendar), {}, d);
      BarsOn(Trading(calendar), raised, d);
    }
  }

  lemma RaisedIsImported(calendars: Calendars, touched: map<Id, set<Date>>)
    requires OnSessions(calendars, touched)
    ensures Imported(Quiet(calendars), Raised(calendars, touched), touched)
  {
    hide Trading, Updated, Throughout;
    forall id | id in calendars
      ensures Updated(Throughout(calendars[id], {}), Throughout(calendars[id], TouchedOf(touched, id)),
              TouchedOf(touched, id))
      ensures BarsAscending(Throughout(calendars[id], TouchedOf(touched, id)).bars)
    {
      ThroughoutIsUpdated(calendars[id], TouchedOf(touched, id));
    }
    ThroughoutCalendars(calendars, touched);
  }

  lemma ThroughoutCalendars(calendars: Calendars, touched: map<Id, set<Date>>)
    ensures forall id :: id in calendars ==> Throughout(calendars[id], TouchedOf(touched, id)).calendar == calendars[id]
  {
  }

  /** A window of a member with a bar on every session is satisfied once it fits. */
  lemma ThroughoutWindow(reg: Registry, calendar: seq<Session>, raised: set<Date>, adjusted: bool, asOf: Date, e: nat,
                         n: nat)
    requires 1 <= n <= e + 1 && e < |Trading(calendar)|
    ensures var window := PlainWindow(Slots(reg, Throughout(calendar, raised), adjusted, asOf), e, n);
            && window.Satisfied? && |window.bars| == n
            && forall k :: 0 <= k < n ==> window.bars[k] == BarWith(Trading(calendar)[e - n + 1 + k], raised)
  {
    hide Slots, Trading;
    var slots := Slots(reg, Throughout(calendar, raised), adjusted, asOf);
    var start := e - n + 1;
    forall i | 0 <= i < |Trading(calendar)| ensures slots[i] == Some(BarWith(Trading(calendar)[i], raised)) {
      ThroughoutSlot(reg, calendar, raised, adjusted, asOf, i);
    }
    assert slots[start].Some?;
    assert Full(slots, start, e + 1);
  }

  lemma ThroughoutSlot(reg: Registry, calendar: seq<Session>, raised: set<Date>, adjusted: bool, asOf: Date, i: nat)
    requires i < |Trading(calendar)|
    ensures Slots(reg, Throughout(calendar, raised), adjusted, asOf)[i] == Some(BarWith(Trading(calendar)[i], raised))
  {
    hide Slots, AdjustBar, BarOn, Trading;
    var inst := Throughout(calendar, raised);
    SlotIs(reg, inst, adjusted, asOf, i);
    BarsOn(Trading(calendar), raised, Trading(calendar)[i]);
    AdjustNone(reg.arithmetic, BarWith(Trading(calendar)[i], raised), asOf);
  }

  /** What a member adds past its first session tells its last two closes: 11 unless one was raised. */
  lemma ThroughoutReturn(window: nat, usersWindow: nat, wMax: nat, calendar: seq<Session>, raised: set<Date>, d: Date)
    requires Ascending(calendar)
    ensures var inst, i := Throughout(calendar, raised), Position(Trading(calendar), d);
            var c := ContributionAt(Telling(window, usersWindow, wMax), inst, d);
            if 0 < i < |Trading(calendar)|
            then c.Contributes? && c.value >= 11 && (c.value == 11 <==> !NearTouched(inst, raised, d))
            else c == NotTrading && !NearTouched(inst, raised, d)
  {
    hide Trading, Slots, PlainWindow, Bars;
    var dates, i := Trading(calendar), Position(Trading(calendar), d);
    if 0 < i < |dates| {
      BarsOn(dates, raised, d);
      ThroughoutWindow(Telling(window, usersWindow, wMax), calendar, raised, true, d, i, 2);
    }
  }

  // ---- A composite that adds its returns up ----------------------------------------------------

  lemma {:induction false} SumTells(m: map<Id, Float>)
    requires forall id :: id in m ==> m[id] >= 11
    ensures Total(Adding(), m) >= 11 * |m|
    ensures Total(Adding(), m) == 11 * |m| <==> forall id :: id in m ==> m[id] == 11
    decreases |m|
  {
    if m == map[] {
      NothingTotalled(Adding());
    } else {
      var top := TopOf(m);
      var rest := m - {top};
      assert m.Keys == rest.Keys + {top};
      SumTells(rest);
      TotalUnfold(Adding(), m, top);
      hide Total;
      assert forall id :: id in m <==> id in rest || id == top;
    }
  }

  lemma SomeMember(m: map<Id, Float>)
    ensures m == map[] || (exists id :: id in m && |m| >= 1)
  {
    if forall id :: id !in m { assert m == map[]; }
  }

  lemma {:induction false} TopOf(m: map<Id, Float>) returns (top: Id)
    requires m != map[]
    ensures IsTop(m, top)
    decreases |m|
  {
    SomeMember(m);
    var id :| id in m;
    var rest := m - {id};
    assert m.Keys == rest.Keys + {id};
    if rest == map[] {
      assert forall x :: x in m ==> x == id;
      top := id;
    } else {
      var other := TopOf(rest);
      top := if other > id then other else id;
      assert forall x :: x in m ==> x in rest || x == id;
    }
  }

  /** The mean that is the sum tells whether every return was 11. */
  lemma MeanTells(m: map<Id, Float>)
    requires m != map[] && forall id :: id in m ==> m[id] >= 11
    ensures var value := MeanOf(Adding(), 1, m);
            value.mean == Some(11 * value.contributors) <==> forall id :: id in m ==> m[id] == 11
  {
    SumTells(m);
    hide Total;
    SomeMember(m);
  }

  /** What the members add at a session tells where the composite may change. */
  lemma RaisedContributors(window: nat, usersWindow: nat, wMax: nat, calendars: Calendars, touched: map<Id, set<Date>>,
                           d: Date)
    requires OnSessions(calendars, touched)
    ensures var universe := Raised(calendars, touched);
            var m := Contributors(Telling(window, usersWindow, wMax), universe, d);
            && (forall id :: id in m ==> m[id] >= 11)
            && ((forall id :: id in m ==> m[id] == 11) <==> !MayChange(universe, touched, d))
  {
    hide Trading, ContributionAt, Throughout, NearTouched, Telling, MayChange;
    var reg, universe := Telling(window, usersWindow, wMax), Raised(calendars, touched);
    var m := Contributors(reg, universe, d);
    forall x | x in universe
      ensures var c := ContributionAt(reg, universe[x], d);
              if c.Contributes? then c.value >= 11
                && (c.value == 11 <==> !NearTouched(universe[x], TouchedOf(touched, x), d))
              else !NearTouched(universe[x], TouchedOf(touched, x), d)
    {
      ThroughoutReturn(window, usersWindow, wMax, calendars[x], TouchedOf(touched, x), d);
    }
    ChangeIsAMember(universe, touched, d);
    if x :| x in universe && NearTouched(universe[x], TouchedOf(touched, x), d) {
      assert x in m && m[x] != 11;
    }
    if x :| x in m && m[x] != 11 {
      assert x in universe && NearTouched(universe[x], TouchedOf(touched, x), d);
    }
  }

  /** The composite at a session past some member's first is as it was exactly where it may not change. */
  lemma RaisedComposite(window: nat, usersWindow: nat, wMax: nat, calendars: Calendars, touched: map<Id, set<Date>>,
                        id: Id, d: Date)
    requires OnSessions(calendars, touched) && id in calendars
             && 0 < Position(Trading(calendars[id]), d) < |Trading(calendars[id])|
    ensures var universe := Raised(calendars, touched);
            var value := SeriesAt(SeriesOf(Telling(window, usersWindow, wMax), universe), d);
            value.mean == Some(11 * value.contributors) <==> !MayChange(universe, touched, d)
  {
    hide Trading, ContributionAt, Throughout, NearTouched, Total, MayChange, Contributors, Sessions, MeanOf;
    var reg, universe := Telling(window, usersWindow, wMax), Raised(calendars, touched);
    ThroughoutReturn(window, usersWindow, wMax, calendars[id], TouchedOf(touched, id), d);
    RaisedContributors(window, usersWindow, wMax, calendars, touched, d);
    Contributing(reg, universe, id, d);
    MeanTells(Contributors(reg, universe, d));
  }

  lemma Contributing(reg: Registry, universe: Universe, id: Id, d: Date)
    requires id in universe && ContributionAt(reg, universe[id], d).Contributes? && reg.hasComposite
    ensures id in Contributors(reg, universe, d)
    ensures SeriesAt(SeriesOf(reg, universe), d) == MeanOf(reg.floats, reg.minimum, Contributors(reg, universe, d))
  {
    hide ContributionAt, MeanOf, Sessions;
    assert CountsFor(reg, universe, id, d);
    RowIsSession(reg, universe, d);
  }

  lemma ChangeIsAMember(universe: Universe, touched: map<Id, set<Date>>, d: Date)
    ensures MayChange(universe, touched, d)
            <==> exists x :: x in universe && NearTouched(universe[x], TouchedOf(touched, x), d)
  {
    if x :| x in universe && NearTouched(universe[x], TouchedOf(touched, x), d) {
      assert x in touched;
    }
    if x :| x in universe && x in touched && NearTouched(universe[x], touched[x], d) {
      assert TouchedOf(touched, x) == touched[x];
    }
  }

  // ---- A reader that tells -------------------------------------------------------------------

  /** A reader's row over such a universe says whether it read a session where the composite may change. */
  lemma RaisedCell(window: nat, usersWindow: nat, wMax: nat, calendars: Calendars, touched: map<Id, set<Date>>, id: Id,
                   d: Date)
    requires OnSessions(calendars, touched) && id in calendars && d in Trading(calendars[id])
    requires 2 <= window <= Position(Trading(calendars[id]), d) + 1
    ensures var reg, universe, dates :=
            Telling(window, usersWindow, wMax), Raised(calendars, touched), Trading(calendars[id]);
            d in universe[id].Dates()
            && CellAt(reg, universe[id], Definition(1, window, false, true), d, SeriesOf(reg, universe))
               == Computed(if Sees(universe, touched, dates, window, d) then "moved" else "steady")
  {
    hide Trading, Slots, PlainWindow, SeriesOf, SeriesAt, BarWith, Sees, MayChange, CellAt, AllSteady, Throughout;
    var reg, universe := Telling(window, usersWindow, wMax), Raised(calendars, touched);
    var dates, e, inst := Trading(calendars[id]), Position(Trading(calendars[id]), d), universe[id];
    var raised := TouchedOf(touched, id);
    ThroughoutTrades(calendars[id], raised, d);
    ThroughoutWindow(reg, calendars[id], raised, false, d, e, window);
    var definition, series := Definition(1, window, false, true), SeriesOf(reg, universe);
    var bars := WindowAt(reg, inst, definition, d).bars;
    var values := SeriesOver(series, bars[1..]);
    ReaderCell(reg, inst, definition, d, series);
    forall k | 0 <= k < |values|
      ensures values[k].mean == Some(11 * values[k].contributors)
         <==> !SeenAt(universe, touched, dates, window, e, e - window + 2 + k)
    {
      BarDate(dates[e - window + 2 + k], raised);
      SeenTells(window, usersWindow, wMax, calendars, touched, id, e, e - window + 2 + k);
    }
    SteadyUnlessSeen(universe, touched, dates, window, d, values);
  }

  lemma SeenTells(window: nat, usersWindow: nat, wMax: nat, calendars: Calendars, touched: map<Id, set<Date>>, id: Id,
                  e: nat, i: nat)
    requires OnSessions(calendars, touched) && id in calendars && e < |Trading(calendars[id])|
    requires 1 <= i <= e && e - window + 2 <= i
    ensures var universe, dates := Raised(calendars, touched), Trading(calendars[id]);
            var value := SeriesAt(SeriesOf(Telling(window, usersWindow, wMax), universe), dates[i]);
            value.mean == Some(11 * value.contributors) <==> !SeenAt(universe, touched, dates, window, e, i)
  {
    hide Trading, SeriesOf, SeriesAt, MayChange, Raised;
    TradingAscends(calendars[id]);
    PositionIs(Trading(calendars[id]), i);
    RaisedComposite(window, usersWindow, wMax, calendars, touched, id, Trading(calendars[id])[i]);
  }

  lemma ReaderCell(reg: Registry, inst: Stored, definition: Definition, d: Date, series: Series)
    requires d in inst.Dates() && definition.usesComposite
    requires WindowAt(reg, inst, definition, d).Satisfied? && WindowAt(reg, inst, definition, d).bars != []
    ensures var bars := WindowAt(reg, inst, definition, d).bars;
            CellAt(reg, inst, definition, d, series) == reg.compute(definition, bars, SeriesOver(series, bars[1..]))
  {
    hide WindowAt;
  }

  lemma SteadyUnlessSeen(universe: Universe, touched: map<Id, set<Date>>, dates: seq<Date>, window: nat, d: Date,
                         values: seq<CompositeValue>)
    requires d in dates && 2 <= window <= Position(dates, d) + 1 && |values| == window - 1
    requires forall k :: 0 <= k < |values| ==>
               (values[k].mean == Some(11 * values[k].contributors)
                <==> !SeenAt(universe, touched, dates, window, Position(dates, d), Position(dates, d) - window + 2 + k))
    ensures AllSteady(values) <==> !Sees(universe, touched, dates, window, d)
  {
    var e := Position(dates, d);
    if i :| SeenAt(universe, touched, dates, window, e, i) {
      var k := i - (e - window + 2);
      assert i == e - window + 2 + k;
      assert values[k].mean != Some(11 * values[k].contributors);
    }
  }

  lemma BarDate(d: Date, raised: set<Date>)
    ensures BarWith(d, raised).date == d
  {
  }

  // ---- A row left stale ------------------------------------------------------------------------

  /** Over any calendars and touched dates: at any session past which a change can be seen and
      which the member's scope does not reach, the row of a reader that sees it is left stale,
      though the opening is kept. */
  lemma UnreachedLeavesStale(calendars: Calendars, touched: map<Id, set<Date>>, plan: Plan, id: Id, d: Date, i: nat,
                             scope: Option<Scope>)
    requires OnSessions(calendars, touched) && id in calendars && d in Trading(calendars[id])
             && plan.usersWindow <= plan.wMax
    requires SeenAt(Raised(calendars, touched), touched, Trading(calendars[id]), plan.usersWindow,
             Position(Trading(calendars[id]), d), i)
    requires !InReach(Trading(calendars[id]), TouchedIn(touched, id), plan, d)
    requires ScopeFor(Telling(Position(Trading(calendars[id]), d) - i + 2, plan.usersWindow, plan.wMax),
                      Raised(calendars, touched)[id], TouchedIn(touched, id), plan, scope)
    ensures var reg := Telling(Position(Trading(calendars[id]), d) - i + 2, plan.usersWindow, plan.wMax);
            var before, after := Quiet(calendars), Raised(calendars, touched);
            && Asked(reg, before, after, touched, plan, id)
            && AppliedScope(reg, after[id], scope, FullTable(reg, before[id], SeriesOf(reg, before)),
               SeriesOf(reg, after))
               != FullTable(reg, after[id], SeriesOf(reg, after))
  {
    hide Trading, SeriesOf, CellAt, ReachTo, Throughout, InReach, ScopeFor, MayChange, Telling, AppliedScope, FullTable;
    var window := Position(Trading(calendars[id]), d) - i + 2;
    var reg, definition := Telling(window, plan.usersWindow, plan.wMax), Definition(1, window, false, true);
    var before, after, dates := Quiet(calendars), Raised(calendars, touched), Trading(calendars[id]);
    TellingIsAsked(calendars, touched, plan, id, window);
    NothingSeen(calendars, dates, window, d);
    assert SeenAt(after, touched, dates, window, Position(dates, d), i);
    RaisedCell(window, plan.usersWindow, plan.wMax, calendars, map[], id, d);
    RaisedCell(window, plan.usersWindow, plan.wMax, calendars, touched, id, d);
    ThroughoutTrades(calendars[id], {}, d);
    ThroughoutTrades(calendars[id], TouchedOf(touched, id), d);
    RowIsStale(reg, before[id], after[id], TouchedIn(touched, id), plan, definition, d, scope, SeriesOf(reg, before),
      SeriesOf(reg, after));
  }

  /** What is asked of an import and its registry, besides the reach. */
  ghost predicate Asked(reg: Registry, before: Universe, after: Universe, touched: map<Id, set<Date>>, plan: Plan,
                        id: Id) {
    && Imported(before, after, touched) && id in before && id in after
    && Windows(reg, plan.wMax) && IsLongest(reg.active, plan.wMax) && IsLongest(Users(reg), plan.usersWindow)
    && (id in touched ==> InDates(after[id], touched[id]))
    && MemberOpeningKept(reg, before, after, touched, plan, id)
  }

  lemma TellingIsAsked(calendars: Calendars, touched: map<Id, set<Date>>, plan: Plan, id: Id, window: nat)
    requires OnSessions(calendars, touched) && id in calendars && 2 <= window <= plan.usersWindow <= plan.wMax
    ensures var reg := Telling(window, plan.usersWindow, plan.wMax);
            Asked(reg, Quiet(calendars), Raised(calendars, touched), touched, plan, id)
            && Definition(1, window, false, true) in Users(reg)
  {
    hide Trading, Telling, OpeningKept, Imported, Bars;
    TellingWindows(window, plan.usersWindow, plan.wMax);
    RaisedIsImported(calendars, touched);
    OpensAtOnce(calendars[id]);
    var reg, before, after :=
      Telling(window, plan.usersWindow, plan.wMax), Quiet(calendars), Raised(calendars, touched);
    if id in touched {
      forall last | last in touched[id] ensures OpeningKept(reg, before[id], after[id], last, plan.wMax) {
        BackfillKeepsOpening(reg, before[id], after[id], last, plan.wMax);
      }
    }
  }

  lemma OpensAtOnce(calendar: seq<Session>)
    ensures Opening(Throughout(calendar, {})) == 0
  {
    hide Trading, Bars;
    if Trading(calendar) != [] {
      BarsOn(Trading(calendar), {}, Trading(calendar)[0]);
    }
  }

  lemma NothingSeen(calendars: Calendars, dates: seq<Date>, w: nat, d: Date)
    ensures !Sees(Quiet(calendars), map[], dates, w, d)
  {
    hide NearTouched, Throughout;
  }

  /** A row outside a member's scope that should have changed makes the two passes differ. */
  lemma RowIsStale(reg: Registry, before: Stored, after: Stored, touched: Option<set<Date>>, plan: Plan,
                   definition: Definition, d: Date, scope: Option<Scope>, series: Series, series': Series)
    requires definition in Users(reg) && d in before.Dates() && d in after.Dates() && before.Trades(d)
             && after.Trades(d)
    requires BarsAscending(after.bars) && after.bars != [] && !InReach(after.Dates(), touched, plan, d)
    requires ScopeFor(reg, after, touched, plan, scope)
    requires CellAt(reg, before, definition, d, series) != CellAt(reg, after, definition, d, series')
    ensures AppliedScope(reg, after, scope, FullTable(reg, before, series), series') != FullTable(reg, after, series')
  {
    hide FullTable, Rewritten, CellAt, ReachTo, Stored.Dates, Stored.Trades, InReach;
    InFullTable(reg, before, series, definition, d);
    InFullTable(reg, after, series', definition, d);
    if scope.Some? {
      ReachIsInScope(reg, after, touched, plan, scope.value, definition, d);
      OutsideStays(reg, after, scope.value, FullTable(reg, before, series), series', (definition, d));
    }
  }

  // ---- Exactly when ----------------------------------------------------------------------------

  ghost predicate OnCalendars(universe: Universe, calendars: Calendars) {
    universe.Keys == calendars.Keys && forall id :: id in universe ==> universe[id].calendar == calendars[id]
  }

  /** Whatever is stored and computed, a member's incremental pass is a full one. */
  ghost predicate AlwaysFull(calendars: Calendars, touched: map<Id, set<Date>>, plan: Plan, id: Id) {
    forall reg, before, after, scope ::
      Asked(reg, before, after, touched, plan, id) && OnCalendars(after, calendars)
      && ScopeFor(reg, after[id], TouchedIn(touched, id), plan, scope) ==>
        AppliedScope(reg, after[id], scope, FullTable(reg, before[id], SeriesOf(reg, before)), SeriesOf(reg, after))
        == FullTable(reg, after[id], SeriesOf(reg, after))
  }

  /** Given the calendars and the touched dates, incremental equals full for a member's rows,
      whatever the bars and the definitions, if and only if its scope reaches every session at
      which the longest reader can see a change. */
  lemma AlwaysFullExactly(calendars: Calendars, touched: map<Id, set<Date>>, plan: Plan, id: Id)
    requires OnSessions(calendars, touched) && id in calendars && plan.usersWindow <= plan.wMax
    ensures AlwaysFull(calendars, touched, plan, id) <==> Reaches(Raised(calendars, touched), touched, plan, id)
  {
    hide SeriesOf, FullTable, AppliedScope, ScopeFor, Telling, Sees, InReach, Trading, Throughout;
    var all := Raised(calendars, touched);
    if Reaches(all, touched, plan, id) {
      forall reg, before, after, scope |
        Asked(reg, before, after, touched, plan, id) && OnCalendars(after, calendars)
        && ScopeFor(reg, after[id], TouchedIn(touched, id), plan, scope)
        ensures AppliedScope(reg, after[id], scope, FullTable(reg, before[id], SeriesOf(reg, before)),
                SeriesOf(reg, after))
             == FullTable(reg, after[id], SeriesOf(reg, after))
      {
        FewerReach(calendars, touched, plan, id, after);
        UsersWindowIsLongest(reg, plan.wMax, plan.usersWindow);
        ReachedIncrementalIsFull(reg, before, after, touched, plan, id, scope);
      }
    } else {
      var d :| all[id].Trades(d) && Sees(all, touched, all[id].Dates(), plan.usersWindow, d)
               && !InReach(all[id].Dates(), TouchedIn(touched, id), plan, d);
      StaleSomewhere(calendars, touched, plan, id, d);
    }
  }

  /** On the same calendars, fewer bars leave fewer sessions to reach. */
  lemma FewerReach(calendars: Calendars, touched: map<Id, set<Date>>, plan: Plan, id: Id, after: Universe)
    requires id in calendars && OnCalendars(after, calendars) && Reaches(Raised(calendars, touched), touched, plan, id)
    ensures Reaches(after, touched, plan, id)
  {
    hide Trading, InReach, BarOn, Bars;
    var all := Raised(calendars, touched);
    forall m | m in calendars ensures all[m].Dates() == after[m].Dates() { }
    forall d
      ensures MayChange(all, touched, d) <==> MayChange(after, touched, d)
    {
      SameDatesSameChanges(all, after, touched, d);
    }
    hide MayChange;
    forall d | after[id].Trades(d) && Sees(after, touched, after[id].Dates(), plan.usersWindow, d)
      ensures InReach(after[id].Dates(), TouchedIn(touched, id), plan, d)
    {
      ThroughoutTrades(calendars[id], TouchedOf(touched, id), d);
      var e := Position(after[id].Dates(), d);
      var i :| SeenAt(after, touched, after[id].Dates(), plan.usersWindow, e, i);
      assert SeenAt(all, touched, all[id].Dates(), plan.usersWindow, e, i);
      assert Sees(all, touched, all[id].Dates(), plan.usersWindow, d);
    }
  }

  lemma SameDatesSameChanges(x: Universe, y: Universe, touched: map<Id, set<Date>>, d: Date)
    requires x.Keys == y.Keys && forall id :: id in x ==> x[id].Dates() == y[id].Dates()
    ensures MayChange(x, touched, d) <==> MayChange(y, touched, d)
  {
    hide Stored.Dates;
    forall id | id in x && id in touched
      ensures NearTouched(x[id], touched[id], d) <==> NearTouched(y[id], touched[id], d) { }
  }

  lemma StaleSomewhere(calendars: Calendars, touched: map<Id, set<Date>>, plan: Plan, id: Id, d: Date)
    requires OnSessions(calendars, touched) && id in calendars && plan.usersWindow <= plan.wMax
    requires var inst := Raised(calendars, touched)[id];
             && inst.Trades(d) && Sees(Raised(calendars, touched), touched, inst.Dates(), plan.usersWindow, d)
             && !InReach(inst.Dates(), TouchedIn(touched, id), plan, d)
    ensures !AlwaysFull(calendars, touched, plan, id)
  {
    hide SeriesOf, FullTable, AppliedScope, Telling, InReach, Trading, MayChange, Bars, Asked;
    var all := Raised(calendars, touched);
    ThroughoutTrades(calendars[id], TouchedOf(touched, id), d);
    var dates := Trading(calendars[id]);
    var i :| SeenAt(all, touched, dates, plan.usersWindow, Position(dates, d), i);
    var reg := Telling(Position(dates, d) - i + 2, plan.usersWindow, plan.wMax);
    assert OnCalendars(all, calendars);
    var scope := SomeScope(reg, calendars, touched, plan, id);
    UnreachedLeavesStale(calendars, touched, plan, id, d, i, scope);
  }

  lemma SomeScope(reg: Registry, calendars: Calendars, touched: map<Id, set<Date>>, plan: Plan, id: Id)
    returns (scope: Option<Scope>)
    requires OnSessions(calendars, touched) && id in calendars
    ensures ScopeFor(reg, Raised(calendars, touched)[id], TouchedIn(touched, id), plan, scope)
  {
    hide Trading, ReachTo;
    var inst := Raised(calendars, touched)[id];
    if inst.bars == [] {
      scope := None;
    } else if id in touched {
      var first, last := EndsOf(touched[id]);
      scope := Some(TouchedScope(reg, inst, first, last, plan.wMax));
    } else {
      var sc := OtherScope(reg, inst, plan.earliest, plan.latest, plan.usersWindow);
      scope := if Users(reg) == {} || sc.from > sc.to then None else Some(sc);
    }
  }

  lemma SomeDate(dates: set<Date>)
    ensures dates == {} || exists d :: d in dates
  {
    if forall d :: d !in dates { assert dates == {}; }
  }

  lemma {:induction false} EndsOf(dates: set<Date>) returns (first: Date, last: Date)
    requires dates != {}
    ensures Spans(dates, first, last)
    decreases |dates|
  {
    SomeDate(dates);
    var d :| d in dates;
    var rest := dates - {d};
    if rest == {} {
      assert dates == {d};
      first, last := d, d;
    } else {
      first, last := EndsOf(rest);
      assert forall x :: x in dates ==> x in rest || x == d;
      first, last := Lesser(first, d), Greater(last, d);
    }
  }

  // ---- Two imports that fail it ----------------------------------------------------------------

  function FourDays(third: SessionStatus): seq<Session> {
    [Session(0, Open), Session(1, Open), Session(2, third), Session(3, Open)]
  }

  function FourDates(third: SessionStatus): seq<Date> {
    if third == Closed then [0, 1, 3] else [0, 1, 2, 3]
  }

  lemma FourDaysTrade(third: SessionStatus)
    ensures Ascending(FourDays(third)) && Trading(FourDays(third)) == FourDates(third)
  {
    var c := FourDays(third);
    assert c[..3][..2][..1][..0] == [] && c[..3][..2][..1] == [c[0]] && c[..3][..2] == [c[0], c[1]];
    assert Trading(c[..3][..2]) == [0, 1] by { assert Trading(c[..3][..2][..1]) == [0]; }
    assert Trading(c[..3]) == if third == Closed then [0, 1] else [0, 1, 2];
  }

  /** Two markets, the second open on all four days. */
  function TwoMarkets(third: SessionStatus): Calendars {
    map[1 := FourDays(third), 2 := FourDays(Open)]
  }

  lemma MarketsOnSessions(third: SessionStatus, touched: map<Id, set<Date>>)
    requires forall id :: id in touched ==>
             touched[id] != {} && touched[id] <= {0, 1, 3} + (if third == Closed && id == 1 then {} else {2})
    ensures OnSessions(TwoMarkets(third), touched)
  {
    FourDaysTrade(Open);
    FourDaysTrade(third);
    hide Trading, FourDays, Ascending;
  }

  /** The composite may change at a touched session but the first, and at the one after it. */
  lemma ChangesAt(calendars: Calendars, touched: map<Id, set<Date>>, id: Id, i: nat)
    requires OnSessions(calendars, touched) && id in calendars && id in touched && 0 < i < |Trading(calendars[id])|
    requires Trading(calendars[id])[i] in touched[id] || Trading(calendars[id])[i - 1] in touched[id]
    ensures MayChange(Raised(calendars, touched), touched, Trading(calendars[id])[i])
  {
    hide Trading;
    TradingAscends(calendars[id]);
    PositionIs(Trading(calendars[id]), i);
    assert NearTouched(Raised(calendars, touched)[id], touched[id], Trading(calendars[id])[i]);
  }

  /** One calendar, both members touched: the first on the second of four sessions, the other up
      to the fourth. With two-session windows the first's own scope ends at the third, and its
      reader's row of the fourth is left as it was. */
  lemma DistantImportLeavesStale()
    ensures var plan, touched := Plan(1, 3, 2, 2), map[1 := {1}, 2 := {1, 2, 3}];
            var reg, before, after := Telling(2, 2, 2), Quiet(TwoMarkets(Open)), Raised(TwoMarkets(Open), touched);
            var scope := Some(Scope(1, 2, reg.active, true));
            && Asked(reg, before, after, touched, plan, 1) && ScopeFor(reg, after[1], Some({1}), plan, scope)
            && AppliedScope(reg, after[1], scope, FullTable(reg, before[1], SeriesOf(reg, before)),
               SeriesOf(reg, after))
               != FullTable(reg, after[1], SeriesOf(reg, after))
  {
    hide *;
    DistantScope();
    DistantDates();
    StaleAtTheFourth(Open, map[1 := {1}, 2 := {1, 2, 3}], Plan(1, 3, 2, 2), Scope(1, 2, Telling(2, 2, 2).active, true));
  }

  lemma DistantScope()
    ensures ScopeFor(Telling(2, 2, 2), Raised(TwoMarkets(Open), map[1 := {1}, 2 := {1, 2, 3}])[1], Some({1}),
            Plan(1, 3, 2, 2), Some(Scope(1, 2, Telling(2, 2, 2).active, true)))
  {
    FourDaysTrade(Open);
    assert Spans({1}, 1, 1);
    hide Trading, FourDays, Telling;
  }

  lemma DistantDates()
    ensures OnSessions(TwoMarkets(Open), map[1 := {1}, 2 := {1, 2, 3}])
    ensures FourDates(Open) == [0, 1, 2, 3] && Position(FourDates(Open), 3) == 3
    ensures !InReach(FourDates(Open), Some({1}), Plan(1, 3, 2, 2), 3)
    ensures TouchedIn(map[1 := {1}, 2 := {1, 2, 3}], 1) == Some({1})
  {
    MarketsOnSessions(Open, map[1 := {1}, 2 := {1, 2, 3}]);
    hide OnSessions;
  }

  /** Two exchanges: the third of the other's four sessions is a holiday of the first's, and only
      the other member is touched, on that day. The first's scope ends on the day its calendar
      does not know, and its reader's row of the fourth is left as it was. */
  lemma HolidayLeavesStale()
    ensures var plan, touched := Plan(2, 2, 2, 2), map[2 := {2}];
            var reg, before, after := Telling(2, 2, 2), Quiet(TwoMarkets(Closed)), Raised(TwoMarkets(Closed), touched);
            var scope := Some(Scope(2, 2, Users(reg), false));
            && Asked(reg, before, after, touched, plan, 1) && ScopeFor(reg, after[1], None, plan, scope)
            && AppliedScope(reg, after[1], scope, FullTable(reg, before[1], SeriesOf(reg, before)),
               SeriesOf(reg, after))
               != FullTable(reg, after[1], SeriesOf(reg, after))
  {
    hide *;
    HolidayScope();
    HolidayDates();
    StaleAtTheFourth(Closed, map[2 := {2}], Plan(2, 2, 2, 2), Scope(2, 2, Users(Telling(2, 2, 2)), false));
  }

  lemma HolidayScope()
    ensures ScopeFor(Telling(2, 2, 2), Raised(TwoMarkets(Closed), map[2 := {2}])[1], None, Plan(2, 2, 2, 2),
                     Some(Scope(2, 2, Users(Telling(2, 2, 2)), false)))
  {
    FourDaysTrade(Closed);
    TellingWindows(2, 2, 2);
    hide Trading, FourDays, Telling, Users, Windows, IsLongest, UsersWindow;
  }

  lemma HolidayDates()
    ensures OnSessions(TwoMarkets(Closed), map[2 := {2}])
    ensures FourDates(Closed) == [0, 1, 3] && Position(FourDates(Closed), 3) == 2
    ensures !InReach(FourDates(Closed), None, Plan(2, 2, 2, 2), 3) && TouchedIn(map[2 := {2}], 1) == None
  {
    MarketsOnSessions(Closed, map[2 := {2}]);
    hide OnSessions;
  }

  lemma StaleAtTheFourth(third: SessionStatus, touched: map<Id, set<Date>>, plan: Plan, sc: Scope)
    requires OnSessions(TwoMarkets(third), touched) && 2 in touched && (2 in touched[2] || 3 in touched[2])
    requires plan.wMax == plan.usersWindow == 2 && !InReach(FourDates(third), TouchedIn(touched, 1), plan, 3)
    requires Position(FourDates(third), 3) == |FourDates(third)| - 1
    requires ScopeFor(Telling(2, 2, 2), Raised(TwoMarkets(third), touched)[1], TouchedIn(touched, 1), plan, Some(sc))
    ensures var reg, before, after := Telling(2, 2, 2), Quiet(TwoMarkets(third)), Raised(TwoMarkets(third), touched);
            && Asked(reg, before, after, touched, plan, 1)
            && AppliedScope(reg, after[1], Some(sc), FullTable(reg, before[1], SeriesOf(reg, before)),
               SeriesOf(reg, after))
               != FullTable(reg, after[1], SeriesOf(reg, after))
  {
    FourDaysTrade(third);
    FourDaysTrade(Open);
    hide OnSessions, InReach, ScopeFor, Telling, Raised, MayChange, Asked, AppliedScope, FullTable, SeriesOf, Trading,
      FourDays;
    ChangesAt(TwoMarkets(third), touched, 2, 3);
    var e := |FourDates(third)| - 1;
    UnreachedLeavesStale(TwoMarkets(third), touched, plan, 1, 3, e, Some(sc));
  }
}

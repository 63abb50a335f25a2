/** Whole runs as the service performs them: every member's scope, the composite, then each
    instrument; and when what they leave is what a full pass leaves. */
module FeatureService {
  import opened Prelude
  import opened FeatureCalendar
  import opened FeatureHistory
  import opened CompositeMean
  import opened FeatureRuns
  import opened FeatureComposite
  import opened FeatureReach
  import opened FeatureStore
  import opened FeatureScopes
  import opened FeatureSeries

  /** What the theorem about a whole run asks: an import of bars, windows within the longest,
      readers within their member's scope, and rows that can be stored. */
  ghost predicate Ready(reg: Registry, before: Universe, after: Universe, touched: map<Id, set<Date>>, plan: Plan) {
    && Imported(before, after, touched) && Windows(reg, plan.wMax) && plan.wMax >= 2
    && forall id :: id in after ==>
         MemberCovered(reg, after, touched, plan, id) && Storable(FullTable(reg, after[id], SeriesOf(reg, after)))
  }

  /** What decides it: each member's opening, and where the composite lost a session. */
  ghost predicate KeepsUp(reg: Registry, before: Universe, after: Universe, touched: map<Id, set<Date>>, plan: Plan) {
    LossesInside(SeriesOf(reg, before), SeriesOf(reg, after)) && OpeningsKept(reg, before, after, touched, plan)
  }

  ghost predicate OpeningsKept(reg: Registry, before: Universe, after: Universe, touched: map<Id, set<Date>>,
                               plan: Plan) {
    forall id :: id in after && id in before ==> MemberOpeningKept(reg, before, after, touched, plan, id)
  }

  /** Such imports exist: any members on one calendar, all touched on the same of its sessions. */
  lemma SameSpanIsReady(ids: set<Id>, calendar: seq<Session>, sessions: set<Date>, first: Date, last: Date, w: nat)
    requires Ascending(calendar) && Spans(sessions, first, last) && w >= 2
    requires forall d :: d in sessions ==> d in Trading(calendar)
    ensures var calendars: Calendars := map id | id in ids :: calendar;
            var touched: map<Id, set<Date>> := map id | id in ids :: sessions;
            && Ready(Telling(2, w, w), Quiet(calendars), Raised(calendars, touched), touched, Plan(first, last, w, w))
            && KeepsUp(Telling(2, w, w), Quiet(calendars), Raised(calendars, touched), touched, Plan(first, last, w, w))
  {
    hide Trading, SeriesOf, FullTable, Imported, MemberCovered, Telling, LossesInside, MemberOpeningKept, Throughout,
      Storable, InDates;
    var calendars: Calendars := map id | id in ids :: calendar;
    var touched: map<Id, set<Date>> := map id | id in ids :: sessions;
    var plan, before, after, reg :=
      Plan(first, last, w, w), Quiet(calendars), Raised(calendars, touched), Telling(2, w, w);
    RaisedIsImported(calendars, touched);
    TellingWindows(2, w, w);
    AfterIsOrdinary(before, after, touched);
    forall id | id in after
      ensures MemberCovered(reg, after, touched, plan, id) && MemberOpeningKept(reg, before, after, touched, plan, id)
      ensures Storable(FullTable(reg, after[id], SeriesOf(reg, after)))
    {
      TellingIsAsked(calendars, touched, plan, id, 2);
      SameSpanReaches(calendars, calendar, touched, plan, id);
      ReachesCovers(reg, after, touched, plan, id);
      TellingIsStorable(w, after[id], SeriesOf(reg, after));
    }
    TellingReturns(w, after);
    NoSessionIsLost(reg, before, after, touched);
  }

  lemma SameSpanReaches(calendars: Calendars, calendar: seq<Session>, touched: map<Id, set<Date>>, plan: Plan, id: Id)
    requires OnSessions(calendars, touched) && id in calendars && id in touched && plan.wMax == plan.usersWindow
    requires forall m :: m in calendars ==>
             calendars[m] == calendar && m in touched && Spans(touched[m], plan.earliest, plan.latest)
    requires Ordinary(Raised(calendars, touched)) && plan.latest in Trading(calendar)
    ensures Reaches(Raised(calendars, touched), touched, plan, id)
  {
    hide Trading, Bars, Reaches;
    SharedCalendarReaches(Raised(calendars, touched), touched, plan, calendar, id, plan.earliest, plan.latest);
  }

  lemma TellingReturns(w: nat, universe: Universe)
    ensures ReturnsDefined(Telling(2, w, w), universe)
  {
    hide Slots, PlainWindow, BarOn, Stored.Dates;
  }

  lemma TellingIsStorable(w: nat, inst: Stored, series: Series)
    ensures Storable(FullTable(Telling(2, w, w), inst, series))
  {
    hide WindowAt, AllSteady;
    var reg := Telling(2, w, w);
    var full := FullTable(reg, inst, series);
    forall k | k in full ensures full[k] != Unstorable {
      assert full[k] == CellAt(reg, inst, k.0, k.1, series);
    }
  }

  /** The members as loaded: one history and one store each, and the universe they make up. */
  ghost predicate Loaded(reg: Registry, ids: seq<Id>, histories: seq<MemberHistory>, stores: seq<ValueStore>,
                         after: Universe)
    reads histories
  {
    && |ids| == |histories| == |stores|
    && (forall i, j :: 0 <= i < j < |ids| ==> ids[i] != ids[j] && stores[i] != stores[j])
    && after.Keys == (set i | 0 <= i < |ids| :: ids[i])
    && forall i :: 0 <= i < |ids| ==>
         histories[i].Valid() && histories[i].arithmetic == reg.arithmetic && after[ids[i]] == StoredOf(histories[i])
  }

  lemma PlanReaders(reg: Registry, touched: map<Id, seq<Date>>, plan: Plan)
    requires IsPlan(reg, touched, plan) && Windows(reg, plan.wMax)
    ensures UsersWindow(reg, plan.usersWindow)
  {
    hide SessionsOf, IsLongest, UsersWindow, Users, Windows;
    UsersWindowIsLongest(reg, plan.wMax, plan.usersWindow);
  }

  lemma PlanBounds(reg: Registry, after: Universe, touched: map<Id, seq<Date>>, plan: Plan)
    requires IsPlan(reg, touched, plan)
    ensures Within(after, TouchedSets(touched), plan.earliest, plan.latest)
  {
    forall id, t | id in after && id in touched && t in TouchedSets(touched)[id]
      ensures plan.earliest <= t <= plan.latest
    {
      assert id in touched.Keys && t in touched[id];
      assert t in SessionsOf(touched, touched.Keys);
    }
  }

  /** What a touched member's reach gives the composite's range. */
  lemma ReachTakes(after: Universe, touched: map<Id, set<Date>>, id: Id, first: Date, last: Date, wMax: nat, to: Date)
    requires id in after && id in touched && Spans(touched[id], first, last) && Ascending(after[id].calendar)
    requires last in after[id].Dates() && wMax >= 2 && to >= ReachTo(after[id].Dates(), last, wMax)
    ensures TakesLast(after[id], touched[id], to)
  {
    hide Stored.Dates;
    TradingDates(after[id]);
    var dates := after[id].Dates();
    assert ReachTo(dates, last, 2) <= ReachTo(dates, last, wMax);
  }

  lemma RowsInFull(reg: Registry, inst: Stored, sc: Scope, series: Series)
    requires sc.definitions <= reg.active && Storable(FullTable(reg, inst, series))
    ensures Storable(Rows(reg, inst, sc.definitions, sc.from, sc.to, series))
  {
    hide CellAt;
    var rows, full := Rows(reg, inst, sc.definitions, sc.from, sc.to, series), FullTable(reg, inst, series);
    forall k | k in rows ensures rows[k] != Unstorable {
      assert k in FullKeys(reg, inst) && full[k] == rows[k];
    }
  }

  lemma ScopeDefinitions(reg: Registry, inst: Stored, touched: Option<set<Date>>, plan: Plan, sc: Scope)
    requires ScopeFor(reg, inst, touched, plan, Some(sc))
    ensures sc.definitions == (if sc.all then reg.active else Users(reg)) && inst.bars != []
  {
  }

  method LoadedMembers(ids: seq<Id>, histories: seq<MemberHistory>) returns (members: seq<Member>)
    requires |ids| == |histories|
    ensures |members| == |ids| && forall i :: 0 <= i < |ids| ==> members[i] == Member(ids[i], StoredOf(histories[i]))
  {
    members := [];
    for i := 0 to |ids|
      invariant |members| == i && forall j :: 0 <= j < i ==> members[j] == Member(ids[j], StoredOf(histories[j]))
    {
      members := members + [Member(ids[i], Stored(histories[i].calendar, histories[i].bars, histories[i].splits))];
    }
  }

  // ---- What a run does ------------------------------------------------------------------------

  /** One member's rows after its scope, if it has one and its rows can be stored. */
  ghost function AfterShare(reg: Registry, inst: Stored, scope: Option<Scope>, rows: Table, series: Series): Table {
    if scope.Some? && !Storable(Rows(reg, inst, scope.value.definitions, scope.value.from, scope.value.to, series))
    then rows
    else AppliedScope(reg, inst, scope, rows, series)
  }

  ghost predicate MemberRan(reg: Registry, inst: Stored, touched: Option<set<Date>>, plan: Plan, was: Table,
                            now: Table, series: Series) {
    exists scope :: ScopeFor(reg, inst, touched, plan, scope) && now == AfterShare(reg, inst, scope, was, series)
  }

  /** The composite as stage one leaves it: untouched when none is published. */
  ghost predicate Composed(reg: Registry, store: Series, after: Universe, from: Date, to: Date, result: Series) {
    if reg.hasComposite then CompositeStage(store, SeriesOf(reg, after), from, to, result) else result == store
  }

  /** What an incremental run makes of every member's rows and of the composite. */
  ghost predicate Ran(reg: Registry, ids: seq<Id>, after: Universe, touched: map<Id, set<Date>>, plan: Plan,
                      writeTo: Date, was: seq<Table>, now: seq<Table>, composite: Series, composite': Series) {
    && |ids| == |was| == |now| && after.Keys == (set i | 0 <= i < |ids| :: ids[i])
    && (forall i :: 0 <= i < |ids| ==>
          MemberRan(reg, after[ids[i]], TouchedIn(touched, ids[i]), plan, was[i], now[i], SeriesOf(reg, after)))
    && (forall i :: 0 <= i < |ids| ==> ReachesMember(after[ids[i]], TouchedIn(touched, ids[i]), plan, writeTo))
    && Composed(reg, composite, after, plan.earliest, writeTo, composite')
  }

  /** Every member's rows are those of a full pass over a universe. */
  ghost predicate AllFull(reg: Registry, universe: Universe, ids: seq<Id>, tables: seq<Table>) {
    && |ids| == |tables|
    && forall i :: 0 <= i < |ids| ==>
       ids[i] in universe && tables[i] == FullTable(reg, universe[ids[i]], SeriesOf(reg, universe))
  }

  // ---- When that is a full pass ---------------------------------------------------------------

  /** What one member's share of the run comes to. */
  lemma MemberShare(reg: Registry, before: Universe, after: Universe, touched: map<Id, set<Date>>, plan: Plan, id: Id,
                    now: Table)
    requires Ready(reg, before, after, touched, plan) && id in after && UsersWindow(reg, plan.usersWindow)
    requires id in before
    requires MemberRan(reg, after[id], TouchedIn(touched, id), plan, FullTable(reg, before[id], SeriesOf(reg, before)),
             now, SeriesOf(reg, after))
    ensures now == FullTable(reg, after[id], SeriesOf(reg, after))
            <==> MemberOpeningKept(reg, before, after, touched, plan, id)
  {
    hide FullTable, SeriesOf, Storable, AppliedScope, MemberCovered, MemberOpeningKept, ScopeFor, Windows, UsersWindow,
      Imported, Rows;
    var was, series := FullTable(reg, before[id], SeriesOf(reg, before)), SeriesOf(reg, after);
    var scope :| ScopeFor(reg, after[id], TouchedIn(touched, id), plan, scope)
      && now == AfterShare(reg, after[id], scope, was, series);
    if scope.Some? {
      ScopeDefinitions(reg, after[id], TouchedIn(touched, id), plan, scope.value);
      RowsInFull(reg, after[id], scope.value, series);
    }
    UniverseIncrementalIsFull(reg, before, after, touched, plan, id, scope);
  }

  /** And what the composite comes to. */
  lemma CompositeShare(reg: Registry, before: Universe, after: Universe, touched: map<Id, set<Date>>, plan: Plan,
                       to: Date, result: Series)
    requires Imported(before, after, touched) && plan.wMax >= 2 && Within(after, touched, plan.earliest, plan.latest)
    requires forall id :: id in after ==> ReachesMember(after[id], TouchedIn(touched, id), plan, to)
    requires forall id :: id in after && id in touched && after[id].bars != [] ==> InDates(after[id], touched[id])
    requires Composed(reg, SeriesOf(reg, before), after, plan.earliest, to, result)
    ensures result == SeriesOf(reg, after) <==> LossesInside(SeriesOf(reg, before), SeriesOf(reg, after))
  {
    hide CompositeStage, ReachTo, Stored.Dates, Updated, Within, NearTouched;
    if reg.hasComposite {
      hide LossesInside, SeriesOf;
      forall id | id in after && id in touched ensures touched[id] == {} || TakesLast(after[id], touched[id], to) {
        if touched[id] != {} {
          TouchedHasBars(before[id], after[id], touched[id]);
          var first, last :| Spans(touched[id], first, last) && to >= ReachTo(after[id].Dates(), last, plan.wMax);
          ReachTakes(after, touched, id, first, last, plan.wMax, to);
        }
      }
      CompositeRewriteIsFull(reg, before, after, touched, plan.earliest, plan.latest, to, result);
    }
  }

  lemma CoveredInDates(reg: Registry, after: Universe, touched: map<Id, set<Date>>, plan: Plan, id: Id)
    requires id in after && MemberCovered(reg, after, touched, plan, id)
    ensures id in touched && after[id].bars != [] ==> InDates(after[id], touched[id])
  {
    hide ReadersCovered, Stored.Dates;
  }

  /** An incremental run over full rows and a full composite leaves them full over the new bars,
      exactly when every touched member's opening is kept and every session the composite lost
      lies between two it still has. */
  lemma RunIsFull(reg: Registry, ids: seq<Id>, before: Universe, after: Universe, touched: map<Id, seq<Date>>,
                  plan: Plan, writeTo: Date, was: seq<Table>, now: seq<Table>, composite': Series)
    requires IsPlan(reg, touched, plan) && Ready(reg, before, after, TouchedSets(touched), plan)
    requires AllFull(reg, before, ids, was)
    requires Ran(reg, ids, after, TouchedSets(touched), plan, writeTo, was, now, SeriesOf(reg, before), composite')
    ensures AllFull(reg, after, ids, now) && composite' == SeriesOf(reg, after)
       <==> KeepsUp(reg, before, after, TouchedSets(touched), plan)
  {
    hide FullTable, SeriesOf, IsPlan, MemberRan, MemberOpeningKept, Composed, MemberCovered, Imported, ReachesMember,
      Storable, LossesInside, Windows, TouchedSets, InDates, TouchedIn, Within;
    var sets := TouchedSets(touched);
    PlanReaders(reg, touched, plan);
    PlanBounds(reg, after, touched, plan);
    forall id | id in after
      ensures id in before && exists i :: 0 <= i < |ids| && ids[i] == id
      ensures ReachesMember(after[id], TouchedIn(sets, id), plan, writeTo)
      ensures id in sets && after[id].bars != [] ==> InDates(after[id], sets[id])
    {
      var i :| 0 <= i < |ids| && ids[i] == id;
      CoveredInDates(reg, after, sets, plan, id);
    }
    CompositeShare(reg, before, after, sets, plan, writeTo, composite');
    forall i | 0 <= i < |ids|
      ensures now[i] == FullTable(reg, after[ids[i]], SeriesOf(reg, after))
              <==> MemberOpeningKept(reg, before, after, sets, plan, ids[i])
    {
      MemberShare(reg, before, after, sets, plan, ids[i], now[i]);
    }
  }

  lemma TouchedHasBars(before: Stored, after: Stored, touched: set<Date>)
    requires Updated(before, after, touched) && touched != {}
    ensures after.bars != []
  {
    SomeId(touched);
    var t :| t in touched;
    assert BarOn(after.bars, t).Some?;
  }

  /** Nothing touched is nothing imported, so a run that does nothing leaves everything full. */
  lemma UntouchedRunIsFull(reg: Registry, ids: seq<Id>, before: Universe, after: Universe, touched: map<Id, seq<Date>>,
                           was: seq<Table>)
    requires touched == map[] && Imported(before, after, TouchedSets(touched)) && AllFull(reg, before, ids, was)
    ensures AllFull(reg, after, ids, was) && SeriesOf(reg, before) == SeriesOf(reg, after)
  {
    hide Updated, FullTable, SeriesOf;
    var sets := TouchedSets(touched);
    forall id | id in after ensures id in before && before[id] == after[id] { assert id !in sets; }
    assert before == after;
  }

  /** With prices, and scopes that reach: read off the calendars, the dates and the openings. */
  lemma PricedRunIsFull(reg: Registry, ids: seq<Id>, before: Universe, after: Universe, touched: map<Id, seq<Date>>,
                        plan: Plan, writeTo: Date,
                        was: seq<Table>, now: seq<Table>, composite': Series, p: Float -> bool)
    requires IsPlan(reg, touched, plan) && Imported(before, after, TouchedSets(touched))
    requires Windows(reg, plan.wMax) && plan.wMax >= 2 && Priced(reg, after, p)
    requires forall id :: id in after ==>
               && Reaches(after, TouchedSets(touched), plan, id)
               && (id in touched ==> InDates(after[id], TouchedSets(touched)[id]))
               && Storable(FullTable(reg, after[id], SeriesOf(reg, after)))
    requires AllFull(reg, before, ids, was)
    requires Ran(reg, ids, after, TouchedSets(touched), plan, writeTo, was, now, SeriesOf(reg, before), composite')
    ensures AllFull(reg, after, ids, now) && composite' == SeriesOf(reg, after)
       <==> OpeningsKept(reg, before, after, TouchedSets(touched), plan)
  {
    hide FullTable, SeriesOf, IsPlan, MemberOpeningKept, MemberCovered, Imported, Storable, LossesInside, Windows,
    TouchedSets, InDates, Reaches, Ran, AllFull, Priced, ReturnsDefined;
    PlanReaders(reg, touched, plan);
    AfterIsOrdinary(before, after, TouchedSets(touched));
    assert TouchedSets(touched).Keys == touched.Keys by { SetsHaveKeys(touched); }
    forall id | id in after ensures MemberCovered(reg, after, TouchedSets(touched), plan, id) {
      ReachesCovers(reg, after, TouchedSets(touched), plan, id);
    }
    PricedReturns(reg, after, p);
    NoSessionIsLost(reg, before, after, TouchedSets(touched));
    RunIsFull(reg, ids, before, after, touched, plan, writeTo, was, now, composite');
  }

  lemma SetsHaveKeys(touched: map<Id, seq<Date>>)
    ensures TouchedSets(touched).Keys == touched.Keys
  {
  }

  // ---- What a run leaves alone ----------------------------------------------------------------

  /** An incremental run changes a member's rows only within its reach, and of an untouched member
      only those of the composite's readers; and the composite only within the range it writes. */
  lemma RunTouchesOnly(reg: Registry, ids: seq<Id>, after: Universe, touched: map<Id, set<Date>>, plan: Plan,
                       writeTo: Date,
                       was: seq<Table>, now: seq<Table>, composite: Series, composite': Series, i: nat, k: Key, d: Date)
    requires Ran(reg, ids, after, touched, plan, writeTo, was, now, composite, composite') && i < |ids|
    ensures (k in now[i]) != (k in was[i]) || (k in was[i] && now[i][k] != was[i][k]) ==>
              && InReach(after[ids[i]].Dates(), TouchedIn(touched, ids[i]), plan, k.1)
              && (ids[i] !in touched ==> k.0 in reg.active && k.0.usesComposite)
    ensures (d in composite') != (d in composite) || (d in composite && composite'[d] != composite[d]) ==>
              plan.earliest <= d <= writeTo
  {
    hide SeriesOf, CellAt, ReachTo, Storable, Stored.Dates, ReachesMember, MemberRan, IsLeastKey, IsGreatestKey;
    MemberTouchesOnly(reg, after[ids[i]], TouchedIn(touched, ids[i]), plan, was[i], now[i], SeriesOf(reg, after), k);
  }

  lemma MemberTouchesOnly(reg: Registry, inst: Stored, touched: Option<set<Date>>, plan: Plan, was: Table, now: Table,
                          series: Series, k: Key)
    requires MemberRan(reg, inst, touched, plan, was, now, series)
    ensures (k in now) != (k in was) || (k in was && now[k] != was[k]) ==>
              && InReach(inst.Dates(), touched, plan, k.1)
              && (touched.None? ==> k.0 in reg.active && k.0.usesComposite)
  {
    hide CellAt, ReachTo, Storable, Stored.Dates;
    var scope :| ScopeFor(reg, inst, touched, plan, scope) && now == AfterShare(reg, inst, scope, was, series);
    if scope.Some? && !InScope(k, scope.value.from, scope.value.to, scope.value.Only()) {
      RewriteLeaves(reg, inst, scope.value, was, series, k);
    }
  }

  lemma RewriteLeaves(reg: Registry, inst: Stored, sc: Scope, store: Table, series: Series, k: Key)
    requires !InScope(k, sc.from, sc.to, sc.Only()) && (sc.all || sc.definitions != {})
    ensures var left := Rewritten(reg, inst, sc, store, series);
            (k in left <==> k in store) && (k in store ==> left[k] == store[k])
  {
    hide CellAt, Stored.Dates;
    assert k !in Rows(reg, inst, sc.definitions, sc.from, sc.to, series);
  }

  // ---- A full run -----------------------------------------------------------------------------

  /** Every active definition over everything stored; nothing for a member without bars. */
  ghost function FullScope(reg: Registry, inst: Stored): Option<Scope> {
    if inst.bars == [] then None
    else Some(Scope(inst.bars[0].date, inst.bars[|inst.bars| - 1].date, reg.active, true))
  }

  /** What a full run makes of every member's rows and of the composite. */
  ghost predicate RanInFull(reg: Registry, ids: seq<Id>, after: Universe, was: seq<Table>, now: seq<Table>,
                            composite: Series, composite': Series) {
    && |ids| == |was| == |now| && (forall i :: 0 <= i < |ids| ==> ids[i] in after)
    && (forall i :: 0 <= i < |ids| ==>
          now[i] == AfterShare(reg, after[ids[i]], FullScope(reg, after[ids[i]]), was[i], SeriesOf(reg, after)))
    && ComposedWhole(reg, composite, after, composite')
  }

  ghost predicate ComposedWhole(reg: Registry, store: Series, after: Universe, result: Series) {
    if reg.hasComposite then StagedWhole(store, SeriesOf(reg, after), result) else result == store
  }

  /** No stored row lies outside the sessions that have bars. */
  ghost predicate RowsInside(inst: Stored, rows: Table) {
    forall k :: k in rows ==> inst.bars != [] && inst.bars[0].date <= k.1 <= inst.bars[|inst.bars| - 1].date
  }

  /** A full run leaves a member's rows full exactly when no stored row lies outside its bars. */
  lemma FullShare(reg: Registry, inst: Stored, was: Table, series: Series)
    requires BarsAscending(inst.bars) && Storable(FullTable(reg, inst, series))
    ensures AfterShare(reg, inst, FullScope(reg, inst), was, series) == FullTable(reg, inst, series)
            <==> RowsInside(inst, was)
  {
    hide CellAt, BarOn, Stored.Dates;
    if inst.bars == [] {
      NoBarsNoRows(reg, inst, series);
    } else {
      var sc := FullScope(reg, inst).value;
      RowsInFull(reg, inst, sc, series);
      EveryRowInside(reg, inst, sc, series);
      if RowsInside(inst, was) {
        forall k | k in was ensures InScope(k, sc.from, sc.to, sc.Only()) { }
      } else {
        var k :| k in was && !(sc.from <= k.1 <= sc.to);
        assert k in Rewritten(reg, inst, sc, was, series);
        assert k !in Rows(reg, inst, sc.definitions, sc.from, sc.to, series);
      }
    }
  }

  lemma NoBarsNoRows(reg: Registry, inst: Stored, series: Series)
    requires inst.bars == []
    ensures FullTable(reg, inst, series) == map[]
  {
    hide CellAt, Stored.Dates;
    assert FullKeys(reg, inst) == {};
  }

  lemma EveryRowInside(reg: Registry, inst: Stored, sc: Scope, series: Series)
    requires BarsAscending(inst.bars) && FullScope(reg, inst) == Some(sc)
    ensures Rows(reg, inst, sc.definitions, sc.from, sc.to, series) == FullTable(reg, inst, series)
  {
    hide CellAt, BarOn, Stored.Dates;
    forall d | inst.Trades(d) ensures sc.from <= d <= sc.to { LastBarIsLast(inst.bars, d); }
    assert RowKeys(inst, sc.definitions, sc.from, sc.to) == FullKeys(reg, inst);
  }

  /** A full run leaves everything full, whatever was stored, if and only if no stored row lies
      outside its member's bars and no stored composite session outside the new series. */
  lemma FullRunIsFull(reg: Registry, ids: seq<Id>, after: Universe, was: seq<Table>, now: seq<Table>,
                      composite: Series, composite': Series)
    requires Ordinary(after) && RanInFull(reg, ids, after, was, now, composite, composite')
    requires forall id :: id in after ==> Storable(FullTable(reg, after[id], SeriesOf(reg, after)))
    ensures AllFull(reg, after, ids, now) && composite' == SeriesOf(reg, after)
       <==> && (forall i :: 0 <= i < |ids| ==> RowsInside(after[ids[i]], was[i]))
            && LossesInside(composite, SeriesOf(reg, after))
  {
    hide FullTable, SeriesOf, AfterShare, FullScope, Storable, RowsInside, LossesInside, StagedWhole;
    forall i | 0 <= i < |ids|
      ensures now[i] == FullTable(reg, after[ids[i]], SeriesOf(reg, after)) <==> RowsInside(after[ids[i]], was[i])
    {
      var id := ids[i];
      assert id in after;
      assert BarsAscending(after[id].bars);
      assert Storable(FullTable(reg, after[id], SeriesOf(reg, after)));
      FullShare(reg, after[id], was[i], SeriesOf(reg, after));
    }
    if reg.hasComposite {
      WholeStage(composite, SeriesOf(reg, after), composite');
    } else {
      NoComposite(reg, after);
      NoneInside(composite);
    }
  }

  lemma WholeStage(store: Series, rows: Series, result: Series)
    requires StagedWhole(store, rows, result)
    ensures result == rows <==> LossesInside(store, rows)
  {
    if rows == map[] {
      NoneInside(store);
    } else {
      var least, greatest :| IsLeastKey(rows, least) && IsGreatestKey(rows, greatest)
           && result == SeriesWritten(store, least, greatest, rows);
      if LossesInside(store, rows) {
        forall d | d in result ensures d in rows { }
        assert result == rows;
      } else {
        var d :| d in store && d !in rows && !(exists x, y :: x in rows && y in rows && x <= d <= y);
        assert d < least || d > greatest;
        assert d in result;
      }
    }
  }

  lemma NoComposite(reg: Registry, universe: Universe)
    requires !reg.hasComposite
    ensures SeriesOf(reg, universe) == map[]
  {
  }

  lemma NoneInside(store: Series)
    ensures LossesInside(store, map[]) <==> store == map[]
  {
    SomeKey(store);
    var none: Series := map[];
    if d :| d in store { assert d !in none; }
  }

  /** After an import a full run always does: what was stored over the old bars lies within the new. */
  lemma FullRunAfterImport(reg: Registry, ids: seq<Id>, before: Universe, after: Universe, touched: map<Id, set<Date>>,
                           was: seq<Table>, now: seq<Table>, composite': Series)
    requires Imported(before, after, touched) && ReturnsDefined(reg, after) && AllFull(reg, before, ids, was)
    requires RanInFull(reg, ids, after, was, now, SeriesOf(reg, before), composite')
    requires forall id :: id in after ==> Storable(FullTable(reg, after[id], SeriesOf(reg, after)))
    ensures AllFull(reg, after, ids, now) && composite' == SeriesOf(reg, after)
  {
    hide FullTable, SeriesOf, Storable, RowsInside, LossesInside, Imported, ReturnsDefined, Updated, AfterShare,
      FullScope, StagedWhole;
    AfterIsOrdinary(before, after, touched);
    NoSessionIsLost(reg, before, after, touched);
    forall i | 0 <= i < |ids| ensures RowsInside(after[ids[i]], was[i]) {
      ImportedMember(before, after, touched, ids[i]);
      OldRowsInside(reg, before[ids[i]], after[ids[i]], TouchedOf(touched, ids[i]), SeriesOf(reg, before));
    }
    FullRunIsFull(reg, ids, after, was, now, SeriesOf(reg, before), composite');
  }

  lemma OldRowsInside(reg: Registry, before: Stored, after: Stored, touched: set<Date>, series: Series)
    requires Updated(before, after, touched)
    ensures RowsInside(after, FullTable(reg, before, series))
  {
    hide CellAt, BarOn, Stored.Dates;
    forall d | before.Trades(d)
      ensures after.bars != [] && after.bars[0].date <= d <= after.bars[|after.bars| - 1].date
    {
      LastBarIsLast(after.bars, d);
    }
  }

  // ---- The run as it goes ---------------------------------------------------------------------

  ghost function Tables(stores: seq<ValueStore>): (tables: seq<Table>)
    reads stores
    ensures |tables| == |stores| && forall i :: 0 <= i < |stores| ==> tables[i] == stores[i].values
  {
    seq(|stores|, i requires 0 <= i < |stores| reads stores => stores[i].values)
  }

  /** Each scope lists every active definition or the composite's readers, and is for a member with bars. */
  ghost predicate Fits(reg: Registry, inst: Stored, scope: Option<Scope>) {
    scope.Some? ==> inst.bars != [] && scope.value.definitions == if scope.value.all then reg.active else Users(reg)
  }

  /** Stage two: each instrument in its own scope. */
  method ComputeScopes(reg: Registry, active: seq<Definition>, users: seq<Definition>, ids: seq<Id>,
                       histories: seq<MemberHistory>, stores: seq<ValueStore>, scopes: seq<Option<Scope>>,
                       series: Series, ghost after: Universe)
    requires Loaded(reg, ids, histories, stores, after) && |scopes| == |ids|
    requires DefinitionSet(active) == reg.active && DefinitionSet(users) == Users(reg)
    requires forall i :: 0 <= i < |ids| ==> ids[i] in after && Fits(reg, after[ids[i]], scopes[i])
    modifies histories, stores
    ensures |stores| == |ids|
    ensures forall i :: 0 <= i < |ids| ==>
            stores[i].values == AfterShare(reg, after[ids[i]], scopes[i], old(stores[i].values), series)
  {
    hide Loaded, DefinitionSet, Fits, Users, AfterShare;
    LoadedSizes(reg, ids, histories, stores, after);
    for i := 0 to |ids|
      invariant Loaded(reg, ids, histories, stores, after)
      invariant forall j :: 0 <= j < i ==>
                stores[j].values == AfterShare(reg, after[ids[j]], scopes[j], old(stores[j].values), series)
      invariant forall j :: i <= j < |ids| ==> stores[j].values == old(stores[j].values)
    {
      LoadedSizes(reg, ids, histories, stores, after);
      ComputeOne(reg, active, users, ids, histories, stores, i, scopes[i], series, after);
    }
  }

  lemma LoadedSizes(reg: Registry, ids: seq<Id>, histories: seq<MemberHistory>, stores: seq<ValueStore>,
                    after: Universe)
    requires Loaded(reg, ids, histories, stores, after)
    ensures |ids| == |histories| == |stores| && after.Keys == (set i | 0 <= i < |ids| :: ids[i])
    ensures forall i :: 0 <= i < |ids| ==> ids[i] in after
    ensures forall i, j :: 0 <= i < j < |ids| ==> stores[i] != stores[j]
  {
    hide MemberHistory.Valid;
  }

  method ComputeOne(reg: Registry, active: seq<Definition>, users: seq<Definition>, ghost ids: seq<Id>,
                    histories: seq<MemberHistory>, stores: seq<ValueStore>, i: nat, scope: Option<Scope>,
                    series: Series, ghost after: Universe)
    requires Loaded(reg, ids, histories, stores, after) && i < |histories| == |stores| == |ids| && ids[i] in after
    requires DefinitionSet(active) == reg.active && DefinitionSet(users) == Users(reg)
    requires Fits(reg, after[ids[i]], scope)
    modifies histories[i], stores[i]
    ensures Loaded(reg, ids, histories, stores, after)
    ensures stores[i].values == AfterShare(reg, after[ids[i]], scope, old(stores[i].values), series)
  {
    hide MemberHistory.Valid, Storable, Rewritten, DefinitionSet, Users, Rows;
    if scope.Some? {
      var sc := scope.value;
      var status := ComputeInstrument(reg, histories[i], sc, if sc.all then active else users, series, stores[i]);
    }
  }

  method ComputeSeries(reg: Registry, ids: seq<Id>, histories: seq<MemberHistory>, ghost stores: seq<ValueStore>,
                       ghost after: Universe) returns (series: Series)
    requires Loaded(reg, ids, histories, stores, after)
    modifies histories
    ensures Loaded(reg, ids, histories, stores, after)
    ensures series == SeriesOf(reg, after)
  {
    hide MemberHistory.Valid, SeriesOf;
    series := ComputeComposite(reg, ids, histories, after);
  }

  /** Stage one: the composite over the whole universe, written over the range it may have changed in. */
  method ComputeComposites(reg: Registry, ids: seq<Id>, histories: seq<MemberHistory>, ghost stores: seq<ValueStore>,
                           composite: CompositeStore, from: Date, to: Date, ghost after: Universe)
    returns (series: Series)
    requires Loaded(reg, ids, histories, stores, after)
    modifies histories, composite
    ensures Loaded(reg, ids, histories, stores, after)
    ensures series == SeriesOf(reg, after)
    ensures Composed(reg, old(composite.rows), after, from, to, composite.rows)
  {
    hide Loaded, SeriesOf, CompositeStage;
    series := ComputeSeries(reg, ids, histories, stores, after);
    if reg.hasComposite {
      composite.Stage(series, from, to);
    }
  }

  /** An incremental run: nothing at all when nothing was touched, else the scopes, the composite
      over its range, and each instrument in its own scope. */
  method ComputeIncremental(reg: Registry, active: seq<Definition>, ids: seq<Id>, histories: seq<MemberHistory>,
                            stores: seq<ValueStore>, composite: CompositeStore, touched: map<Id, seq<Date>>,
                            ghost after: Universe)
    returns (plan: Option<Plan>, writeTo: Date)
    requires Loaded(reg, ids, histories, stores, after) && DefinitionSet(active) == reg.active && Ordinary(after)
    requires forall id :: id in touched ==> touched[id] != []
    modifies histories, stores, composite
    ensures plan.None? <==> touched == map[]
    ensures plan.None? ==> Tables(stores) == old(Tables(stores)) && composite.rows == old(composite.rows)
    ensures plan.Some? ==>
              && IsPlan(reg, touched, plan.value)
              && Ran(reg, ids, after, TouchedSets(touched), plan.value, writeTo,
                     old(Tables(stores)), Tables(stores), old(composite.rows), composite.rows)
  {
    hide SeriesOf, IsPlan, Composed, AfterShare, DefinitionSet, TouchedSets, Loaded, ScopeFor, Fits, ReachesMember,
      TouchedIn, Ran;
    if touched == map[] {
      return None, 0;
    }
    LoadedSizes(reg, ids, histories, stores, after);
    var members := LoadedMembers(ids, histories);
    LoadedAlike(reg, ids, histories, stores, after);
    var scopes, run, to := IncrementalScopes(reg, active, members, touched);
    ScopesFit(reg, scopes, members, TouchedSets(touched), run);
    ghost var was := Tables(stores);
    var series := ComputeComposites(reg, ids, histories, stores, composite, run.earliest, to, after);
    var users := CompositeUsers(reg, active);
    ComputeScopes(reg, active, users, ids, histories, stores, scopes, series, after);
    AllRan(reg, ids, after, TouchedSets(touched), run, to, scopes, was, Tables(stores), old(composite.rows),
      composite.rows);
    plan, writeTo := Some(run), to;
  }

  method ComputeWholeComposite(reg: Registry, ids: seq<Id>, histories: seq<MemberHistory>,
                               ghost stores: seq<ValueStore>, composite: CompositeStore, ghost after: Universe)
    returns (series: Series)
    requires Loaded(reg, ids, histories, stores, after)
    modifies histories, composite
    ensures Loaded(reg, ids, histories, stores, after)
    ensures series == SeriesOf(reg, after)
    ensures ComposedWhole(reg, old(composite.rows), after, composite.rows)
  {
    hide Loaded, SeriesOf, StagedWhole;
    series := ComputeSeries(reg, ids, histories, stores, after);
    if reg.hasComposite {
      composite.StageWhole(series);
    }
  }

  /** A full run: the whole composite, then each instrument over everything it has stored. */
  method ComputeFull(reg: Registry, active: seq<Definition>, ids: seq<Id>, histories: seq<MemberHistory>,
                     stores: seq<ValueStore>, composite: CompositeStore, ghost after: Universe)
    requires Loaded(reg, ids, histories, stores, after) && DefinitionSet(active) == reg.active
    modifies histories, stores, composite
    ensures RanInFull(reg, ids, after, old(Tables(stores)), Tables(stores), old(composite.rows), composite.rows)
  {
    hide SeriesOf, AfterShare, DefinitionSet, Loaded, Fits, FullScope, ComposedWhole, RanInFull;
    LoadedSizes(reg, ids, histories, stores, after);
    var scopes := FullScopes(reg, ids, histories, stores, after);
    var series := ComputeWholeComposite(reg, ids, histories, stores, composite, after);
    var users := CompositeUsers(reg, active);
    ghost var was := Tables(stores);
    ComputeScopes(reg, active, users, ids, histories, stores, scopes, series, after);
    AllRanInFull(reg, ids, after, scopes, was, Tables(stores), old(composite.rows), composite.rows);
  }

  lemma AllRanInFull(reg: Registry, ids: seq<Id>, after: Universe, scopes: seq<Option<Scope>>, was: seq<Table>,
                     now: seq<Table>, composite: Series, composite': Series)
    requires |ids| == |scopes| == |was| == |now| && forall i :: 0 <= i < |ids| ==> ids[i] in after
    requires forall i :: 0 <= i < |ids| ==> scopes[i] == FullScope(reg, after[ids[i]])
    requires forall i :: 0 <= i < |ids| ==>
             now[i] == AfterShare(reg, after[ids[i]], scopes[i], was[i], SeriesOf(reg, after))
    requires ComposedWhole(reg, composite, after, composite')
    ensures RanInFull(reg, ids, after, was, now, composite, composite')
  {
    hide SeriesOf, AfterShare, FullScope, ComposedWhole;
  }

  method FullScopes(reg: Registry, ids: seq<Id>, histories: seq<MemberHistory>, ghost stores: seq<ValueStore>,
                    ghost after: Universe) returns (scopes: seq<Option<Scope>>)
    requires Loaded(reg, ids, histories, stores, after)
    ensures |scopes| == |ids|
    ensures forall i :: 0 <= i < |ids| ==> ids[i] in after && scopes[i] == FullScope(reg, after[ids[i]])
    ensures forall i :: 0 <= i < |ids| ==> Fits(reg, after[ids[i]], scopes[i])
  {
    hide Loaded;
    LoadedSizes(reg, ids, histories, stores, after);
    LoadedAlike(reg, ids, histories, stores, after);
    scopes := [];
    for i := 0 to |ids|
      invariant |scopes| == i
      invariant forall j :: 0 <= j < i ==> scopes[j] == FullScope(reg, after[ids[j]])
    {
      var bars := histories[i].bars;
      var scope := None;
      if |bars| > 0 {
        scope := Some(Scope(bars[0].date, bars[|bars| - 1].date, reg.active, true));
      }
      scopes := scopes + [scope];
    }
  }

  lemma LoadedAlike(reg: Registry, ids: seq<Id>, histories: seq<MemberHistory>, stores: seq<ValueStore>,
                    after: Universe)
    requires Loaded(reg, ids, histories, stores, after)
    ensures forall i :: 0 <= i < |ids| ==> ids[i] in after && after[ids[i]] == StoredOf(histories[i])
    ensures Ordinary(after) ==> forall i :: 0 <= i < |ids| ==> Ascending(after[ids[i]].calendar)
  {
    hide MemberHistory.Valid;
  }

  lemma ScopesFit(reg: Registry, scopes: seq<Option<Scope>>, members: seq<Member>, touched: map<Id, set<Date>>,
                  plan: Plan)
    requires |scopes| == |members|
    requires forall i :: 0 <= i < |members| ==>
             ScopeFor(reg, members[i].stored, TouchedIn(touched, members[i].id), plan, scopes[i])
    ensures forall i :: 0 <= i < |members| ==> Fits(reg, members[i].stored, scopes[i])
  {
    hide ScopeFor, TouchedIn;
    forall i | 0 <= i < |members| ensures Fits(reg, members[i].stored, scopes[i]) {
      if scopes[i].Some? {
        ScopeDefinitions(reg, members[i].stored, TouchedIn(touched, members[i].id), plan, scopes[i].value);
      }
    }
  }

  lemma AllRan(reg: Registry, ids: seq<Id>, after: Universe, touched: map<Id, set<Date>>, plan: Plan, writeTo: Date,
               scopes: seq<Option<Scope>>, was: seq<Table>, now: seq<Table>, composite: Series, composite': Series)
    requires |ids| == |scopes| == |was| == |now| && after.Keys == (set i | 0 <= i < |ids| :: ids[i])
    requires forall i :: 0 <= i < |ids| ==> ids[i] in after
    requires forall i :: 0 <= i < |ids| ==> ScopeFor(reg, after[ids[i]], TouchedIn(touched, ids[i]), plan, scopes[i])
    requires forall i :: 0 <= i < |ids| ==>
             now[i] == AfterShare(reg, after[ids[i]], scopes[i], was[i], SeriesOf(reg, after))
    requires forall i :: 0 <= i < |ids| ==> ReachesMember(after[ids[i]], TouchedIn(touched, ids[i]), plan, writeTo)
    requires Composed(reg, composite, after, plan.earliest, writeTo, composite')
    ensures Ran(reg, ids, after, touched, plan, writeTo, was, now, composite, composite')
  {
    hide SeriesOf, AfterShare, ScopeFor, TouchedIn, ReachesMember, Composed;
    forall i | 0 <= i < |ids|
      ensures MemberRan(reg, after[ids[i]], TouchedIn(touched, ids[i]), plan, was[i], now[i], SeriesOf(reg, after))
    {
      assert ScopeFor(reg, after[ids[i]], TouchedIn(touched, ids[i]), plan, scopes[i]);
    }
  }
}

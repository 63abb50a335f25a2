/** Which sessions an incremental run recomputes, collected member by member. */
module FeatureScopes {
  import opened Prelude
  import opened FeatureCalendar
  import opened FeatureHistory
  import opened CompositeMean
  import opened FeatureRuns
  import opened FeatureComposite
  import opened FeatureStore

  /** A touched member's sessions, from first to last. */
  method Span(sessions: seq<Date>) returns (first: Date, last: Date)
    requires sessions != []
    ensures Spans(set i | 0 <= i < |sessions| :: sessions[i], first, last)
  {
    first, last := sessions[0], sessions[0];
    for i := 1 to |sessions|
      invariant first in sessions && last in sessions
      invariant forall j :: 0 <= j < i ==> first <= sessions[j] <= last
    {
      first, last := Lesser(first, sessions[i]), Greater(last, sessions[i]);
    }
  }

  /** Every session some of the instruments were touched at. */
  ghost function SessionsOf(touched: map<Id, seq<Date>>, ids: set<Id>): set<Date> {
    set id, d | id in ids && id in touched && d in touched[id] :: d
  }

  /** The least and greatest of a set of sessions; nothing for none. */
  ghost predicate Bounds(sessions: set<Date>, earliest: Option<Date>, latest: Option<Date>) {
    if sessions == {} then earliest.None? && latest.None?
    else earliest.Some? && latest.Some? && Spans(sessions, earliest.value, latest.value)
  }

  /** The first and last session any instrument was touched at. */
  method TouchedBounds(touched: map<Id, seq<Date>>) returns (earliest: Option<Date>, latest: Option<Date>)
    ensures Bounds(SessionsOf(touched, touched.Keys), earliest, latest)
  {
    hide Spans;
    earliest, latest := None, None;
    var remaining := touched.Keys;
    while remaining != {}
      invariant remaining <= touched.Keys
      invariant Bounds(SessionsOf(touched, touched.Keys - remaining), earliest, latest)
      decreases |remaining|
    {
      SomeId(remaining);
      var id :| id in remaining;
      var sessions := touched[id];
      ghost var mine := set i | 0 <= i < |sessions| :: sessions[i];
      ghost var seen := SessionsOf(touched, touched.Keys - remaining);
      SessionsGrow(touched, remaining, id);
      if sessions != [] {
        var first, last := Span(sessions);
        BoundsJoin(seen, earliest, latest, mine, first, last);
        earliest := Some(if earliest.None? then first else Lesser(earliest.value, first));
        latest := Some(if latest.None? then last else Greater(latest.value, last));
      } else {
        assert seen + mine == seen;
      }
      remaining := remaining - {id};
    }
    assert touched.Keys - {} == touched.Keys;
  }

  lemma SomeId(ids: set<Id>)
    ensures ids == {} || exists id :: id in ids
  {
    if forall id :: id !in ids {
      assert ids == {};
    }
  }

  lemma SessionsGrow(touched: map<Id, seq<Date>>, remaining: set<Id>, id: Id)
    requires remaining <= touched.Keys && id in remaining
    ensures SessionsOf(touched, touched.Keys - (remaining - {id}))
         == SessionsOf(touched, touched.Keys - remaining) + (set i | 0 <= i < |touched[id]| :: touched[id][i])
  {
    var mine := set i | 0 <= i < |touched[id]| :: touched[id][i];
    assert forall d :: d in mine <==> d in touched[id];
    assert touched.Keys - (remaining - {id}) == touched.Keys - remaining + {id};
    SessionsUnite(touched, touched.Keys - remaining, {id});
    assert forall d :: d in SessionsOf(touched, {id}) <==> d in touched[id];
  }

  lemma SessionsUnite(touched: map<Id, seq<Date>>, x: set<Id>, y: set<Id>)
    ensures SessionsOf(touched, x + y) == SessionsOf(touched, x) + SessionsOf(touched, y)
  {
    forall d ensures d in SessionsOf(touched, x + y) <==> d in SessionsOf(touched, x) || d in SessionsOf(touched, y) {
      if d in SessionsOf(touched, x) {
        var id :| id in x && id in touched && d in touched[id];
        assert id in x + y;
      }
      if d in SessionsOf(touched, y) {
        var id :| id in y && id in touched && d in touched[id];
        assert id in x + y;
      }
    }
  }

  lemma BoundsJoin(seen: set<Date>, earliest: Option<Date>, latest: Option<Date>, mine: set<Date>, first: Date,
                   last: Date)
    requires Bounds(seen, earliest, latest) && Spans(mine, first, last)
    ensures Bounds(seen + mine, Some(if earliest.None? then first else Lesser(earliest.value, first)),
                   Some(if latest.None? then last else Greater(latest.value, last)))
  {
    if seen == {} {
      assert seen + mine == mine;
    } else {
      var least, greatest := Lesser(earliest.value, first), Greater(latest.value, last);
      assert Spans(seen + mine, least, greatest);
    }
    assert first in seen + mine;
  }

  /** The longest window of a list of definitions; nothing for none. */
  method LongestWindow(definitions: seq<Definition>) returns (longest: nat)
    ensures IsLongest(DefinitionSet(definitions), longest)
  {
    longest := 0;
    for k := 0 to |definitions|
      invariant forall i :: 0 <= i < k ==> definitions[i].window <= longest
      invariant longest == 0 || exists i :: 0 <= i < k && definitions[i].window == longest
    {
      if definitions[k].window > longest { longest := definitions[k].window; }
    }
    if i :| 0 <= i < |definitions| && definitions[i].window == longest {
      assert definitions[i] in DefinitionSet(definitions);
    }
  }

  /** The active definitions that read the composite. */
  method CompositeUsers(reg: Registry, active: seq<Definition>) returns (users: seq<Definition>)
    requires DefinitionSet(active) == reg.active
    ensures DefinitionSet(users) == Users(reg)
  {
    users := [];
    for k := 0 to |active|
      invariant forall d :: d in users <==> d in active[..k] && d.usesComposite
    {
      if active[k].usesComposite { users := users + [active[k]]; }
      assert active[..k + 1] == active[..k] + [active[k]];
    }
    assert active[..|active|] == active;
    forall d ensures d in DefinitionSet(users) <==> d in Users(reg) {
      ListedIsIn(users, d);
      ListedIsIn(active, d);
    }
  }

  lemma ListedIsIn(definitions: seq<Definition>, d: Definition)
    ensures d in DefinitionSet(definitions) <==> d in definitions
  {
  }

  /** One member of the universe, in the order histories were loaded. */
  datatype Member = Member(id: Id, stored: Stored)

  ghost function TouchedSets(touched: map<Id, seq<Date>>): map<Id, set<Date>> {
    map id | id in touched :: (set i | 0 <= i < |touched[id]| :: touched[id][i])
  }

  /** What the touched dates and the active definitions make of a run: the span of all that was
      touched, the longest window, and the longest of a composite reader. */
  ghost predicate IsPlan(reg: Registry, touched: map<Id, seq<Date>>, plan: Plan) {
    && Bounds(SessionsOf(touched, touched.Keys), Some(plan.earliest), Some(plan.latest))
    && IsLongest(reg.active, plan.wMax) && IsLongest(Users(reg), plan.usersWindow)
  }

  /** A range reaches as far as a touched member's own reach. */
  ghost predicate ReachesMember(inst: Stored, touched: Option<set<Date>>, plan: Plan, to: Date) {
    inst.bars != [] && touched.Some? ==>
      exists first, last :: Spans(touched.value, first, last) && to >= ReachTo(inst.Dates(), last, plan.wMax)
  }

  /** One member's turn in the loop, with how far its composite rewrite must reach. */
  method ScopeOfMember(reg: Registry, m: Member, touched: map<Id, seq<Date>>, plan: Plan, writeTo: Date)
    returns (scope: Option<Scope>, to: Date)
    requires Ascending(m.stored.calendar) && (m.id in touched ==> touched[m.id] != [])
    ensures ScopeFor(reg, m.stored, TouchedIn(TouchedSets(touched), m.id), plan, scope)
    ensures to >= writeTo
    ensures ReachesMember(m.stored, TouchedIn(TouchedSets(touched), m.id), plan, to)
  {
    hide ReachTo;
    to := writeTo;
    if m.stored.bars == [] {
      return None, to;
    }
    var lastBar := m.stored.bars[|m.stored.bars| - 1].date;
    if m.id in touched {
      var first, last := Span(touched[m.id]);
      var reach := AffectedRange(m.stored.calendar, last, plan.wMax);
      to := Greater(to, reach);
      scope := Some(Scope(first, Lesser(reach, lastBar), reg.active, true));
      assert Spans(TouchedSets(touched)[m.id], first, last)
        && scope == Some(TouchedScope(reg, m.stored, first, last, plan.wMax));
      return;
    }
    if Users(reg) == {} {
      return None, to;
    }
    var reach := AffectedRange(m.stored.calendar, plan.latest, plan.usersWindow);
    var from, through := Greater(plan.earliest, m.stored.bars[0].date), Lesser(reach, lastBar);
    if from > through {
      return None, to;
    }
    scope := Some(Scope(from, through, Users(reg), false));
  }

  /** Every member's scope, in order, and how far the composite must be rewritten. */
  method IncrementalScopes(reg: Registry, active: seq<Definition>, members: seq<Member>, touched: map<Id, seq<Date>>)
    returns (scopes: seq<Option<Scope>>, plan: Plan, writeTo: Date)
    requires DefinitionSet(active) == reg.active
    requires touched != map[] && forall id :: id in touched ==> touched[id] != []
    requires forall m :: m in members ==> Ascending(m.stored.calendar)
    ensures IsPlan(reg, touched, plan) && SessionsOf(touched, touched.Keys) != {}
    ensures |scopes| == |members|
    ensures forall i :: 0 <= i < |members| ==>
              ScopeFor(reg, members[i].stored, TouchedIn(TouchedSets(touched), members[i].id), plan, scopes[i])
    ensures writeTo >= plan.latest
    ensures forall i :: 0 <= i < |members| ==>
              ReachesMember(members[i].stored, TouchedIn(TouchedSets(touched), members[i].id), plan, writeTo)
  {
    hide ReachTo, ScopeFor, Spans, IsLongest, SessionsOf;
    var users := CompositeUsers(reg, active);
    var usersWindow := LongestWindow(users);
    var wMax := LongestWindow(active);
    var earliest, latest := TouchedBounds(touched);
    SomethingTouched(touched);
    plan := Plan(earliest.value, latest.value, wMax, usersWindow);
    scopes, writeTo := [], plan.latest;
    for k := 0 to |members|
      invariant |scopes| == k && writeTo >= plan.latest
      invariant forall i :: 0 <= i < k ==>
                  ScopeFor(reg, members[i].stored, TouchedIn(TouchedSets(touched), members[i].id), plan, scopes[i])
      invariant forall i :: 0 <= i < k ==>
                  ReachesMember(members[i].stored, TouchedIn(TouchedSets(touched), members[i].id), plan, writeTo)
    {
      var scope;
      scope, writeTo := ScopeOfMember(reg, members[k], touched, plan, writeTo);
      scopes := scopes + [scope];
    }
  }

  lemma SomethingTouched(touched: map<Id, seq<Date>>)
    requires touched != map[] && forall id :: id in touched ==> touched[id] != []
    ensures SessionsOf(touched, touched.Keys) != {}
  {
    SomeMember(touched);
    var id :| id in touched;
    var d := touched[id][0];
    assert id in touched.Keys && d in touched[id];
    assert d in SessionsOf(touched, touched.Keys);
  }

  lemma SomeMember(touched: map<Id, seq<Date>>)
    ensures touched == map[] || exists id :: id in touched
  {
    if forall id :: id !in touched { assert touched == map[]; }
  }
}

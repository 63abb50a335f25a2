/** Nothing a run records by a session depends on anything dated after it. */
module NoLookahead {
  import opened Prelude
  import opened Decimal
  import opened Costs
  import opened BacktestModel
  import opened Ordering

  function QuoteAt(inp: Inputs, currency: string, session: Session): Option<Dec> {
    if currency in inp.rates && session in inp.rates[currency] then Some(inp.rates[currency][session]) else None
  }

  function BarAt(m: Instrument, session: Session): Option<(Dec, Dec)> {
    if session in m.opens && session in m.closes then Some((m.opens[session], m.closes[session])) else None
  }

  /** The two inputs tell the same story through session k: rules, calendar, bars,
      rates and signals. What either holds after k is arbitrary. */
  ghost predicate AgreeThrough(a: Inputs, b: Inputs, k: Session) {
    && a.configuration == b.configuration && a.idFailures == b.idFailures
    && k < |a.calendar| && k < |b.calendar| && a.calendar[..k + 1] == b.calendar[..k + 1]
    && a.members.Keys == b.members.Keys
    && (forall id :: id in a.members ==> a.members[id].currency == b.members[id].currency)
    && (forall id, t: Session :: id in a.members && t <= k ==> BarAt(a.members[id], t) == BarAt(b.members[id], t))
    && (forall c, t: Session :: t <= k ==> QuoteAt(a, c, t) == QuoteAt(b, c, t))
    && (forall t: Session :: t <= k ==> SignalsAt(a, t) == SignalsAt(b, t))
  }

  // ---- The two lookups that search the traded sessions ----------------------------------------

  lemma FirstIsLeast(traded: seq<Session>, after: Session, t: Session)
    requires Ascending(traded) && t in traded && t > after
    ensures var i := FirstAfter(traded, after); i < |traded| && traded[i] <= t
  {
    var j :| 0 <= j < |traded| && traded[j] == t;
  }

  lemma LastIsGreatest(traded: seq<Session>, at: Session, t: Session)
    requires Ascending(traded) && t in traded && t <= at
    ensures var i := FirstAfter(traded, at); i > 0 && t <= traded[i - 1] <= at
  {
    var j :| 0 <= j < |traded| && traded[j] == t;
  }

  lemma TradedAgree(a: Inputs, b: Inputs, k: Session, id: Id, t: Session)
    requires ValidInputs(a) && ValidInputs(b) && AgreeThrough(a, b, k) && id in a.members && t <= k
    ensures t in a.members[id].traded <==> t in b.members[id].traded
  {
    assert BarAt(a.members[id], t) == BarAt(b.members[id], t);
  }

  /** A next session by k found in one input is found in the other. */
  lemma NextCarries(a: Inputs, b: Inputs, k: Session, id: Id, s: Session)
    requires ValidInputs(a) && ValidInputs(b) && AgreeThrough(a, b, k) && id in a.members
    requires var next := NextTradedSession(a, a.members[id], s); next.At? && next.session <= k
    ensures NextTradedSession(b, b.members[id], s) == NextTradedSession(a, a.members[id], s)
  {
    var ma, mb := a.members[id], b.members[id];
    var c := NextTradedSession(a, ma, s).session;
    NextIsLater(a, ma, s);
    TradedAgree(a, b, k, id, c);
    FirstIsLeast(mb.traded, s, c);
    var d := mb.traded[FirstAfter(mb.traded, s)];
    TradedAgree(a, b, k, id, d);
    FirstIsLeast(ma.traded, s, d);
  }

  lemma AgreeSymmetric(a: Inputs, b: Inputs, k: Session)
    requires AgreeThrough(a, b, k)
    ensures AgreeThrough(b, a, k)
  {
    forall id, t: Session | id in b.members && t <= k ensures BarAt(b.members[id], t) == BarAt(a.members[id], t) {
      assert id in a.members;
    }
  }

  lemma PriceAsOfAgree(a: Inputs, b: Inputs, k: Session, id: Id, s: Session)
    requires ValidInputs(a) && ValidInputs(b) && AgreeThrough(a, b, k) && id in a.members && s <= k
    ensures PriceAsOf(a, a.members[id], s) == PriceAsOf(b, b.members[id], s)
    ensures PriceAsOf(a, a.members[id], s).Some? ==> PriceAsOf(a, a.members[id], s).value.1 <= s
  {
    var ma, mb := a.members[id], b.members[id];
    assert BarAt(ma, s) == BarAt(mb, s);
    LastPriceCarries(a, b, k, id, s);
    AgreeSymmetric(a, b, k);
    LastPriceCarries(b, a, k, id, s);
  }

  /** The last traded session up to s in one input is the last in the other. */
  lemma LastPriceCarries(a: Inputs, b: Inputs, k: Session, id: Id, s: Session)
    requires ValidInputs(a) && ValidInputs(b) && AgreeThrough(a, b, k) && id in a.members && s <= k
    ensures var ma, mb := a.members[id], b.members[id];
            var i, j := FirstAfter(ma.traded, s), FirstAfter(mb.traded, s);
            i > 0 ==> j > 0 && ma.traded[i - 1] == mb.traded[j - 1] <= s
                      && ma.closes[ma.traded[i - 1]] == mb.closes[mb.traded[j - 1]]
  {
    var ma, mb := a.members[id], b.members[id];
    var i := FirstAfter(ma.traded, s);
    if i > 0 {
      var t := ma.traded[i - 1];
      TradedAgree(a, b, k, id, t);
      LastIsGreatest(mb.traded, s, t);
      var u := mb.traded[FirstAfter(mb.traded, s) - 1];
      TradedAgree(a, b, k, id, u);
      LastIsGreatest(ma.traded, s, u);
      assert BarAt(ma, t) == BarAt(mb, t);
    }
  }

  lemma RateAgree(a: Inputs, b: Inputs, k: Session, currency: string, s: Session)
    requires AgreeThrough(a, b, k) && s <= k
    ensures Rate(a, currency, s) == Rate(b, currency, s)
  {
    assert QuoteAt(a, currency, s) == QuoteAt(b, currency, s);
  }

  // ---- States that look the same through k ----------------------------------------------------

  ghost predicate SameItem(x: Pending, y: Pending) {
    x.instrument == y.instrument && x.signalSession == y.signalSession && x.direction == y.direction
      && x.budget == y.budget
  }

  ghost predicate SameItems(xs: seq<Pending>, ys: seq<Pending>) {
    |xs| == |ys| && forall i :: 0 <= i < |xs| ==> SameItem(xs[i], ys[i])
  }

  /** Everything recorded is equal; skips may differ, since giving up depends on later sessions. */
  ghost predicate SameRecord(x: State, y: State) {
    && x.cash == y.cash && x.holdings == y.holdings && x.trades == y.trades && x.positions == y.positions
    && x.equity == y.equity && x.rebalances == y.rebalances && x.draws == y.draws
  }

  ghost predicate SameQueue(x: State, y: State, from: Session, k: Session) {
    forall c: Session :: from <= c <= k ==> SameItems(Due(x.queue, c), Due(y.queue, c))
  }

  lemma ExecuteAgree(a: Inputs, b: Inputs, k: Session, x: State, y: State, p: Pending, q: Pending, s: Session)
    requires ValidInputs(a) && ValidInputs(b) && AgreeThrough(a, b, k) && s <= k
    requires SameRecord(x, y) && SameItem(p, q) && p.instrument in a.members
    ensures SameRecord(Execute(a, x, p, s), Execute(b, y, q, s))
  {
    hide ValidInputs;
    DecideAgree(a, b, k, x.cash, x.holdings, p, q, s);
    hide Decide, AgreeThrough, Price;
    assert a.configuration.costs == b.configuration.costs && a.idFailures == b.idFailures;
  }

  lemma DecideAgree(a: Inputs, b: Inputs, k: Session, cash: Dec, holdings: map<Id, Holding>, p: Pending, q: Pending,
                    s: Session)
    requires ValidInputs(a) && ValidInputs(b) && AgreeThrough(a, b, k) && s <= k
    requires SameItem(p, q) && p.instrument in a.members
    ensures q.instrument in b.members && a.configuration == b.configuration && a.idFailures == b.idFailures
    ensures Decide(a, cash, holdings, p, s) == Decide(b, cash, holdings, q, s)
  {
    BarAgree(a, b, k, p.instrument, s);
    RateAgree(a, b, k, a.members[p.instrument].currency, s);
    assert a.members[p.instrument].currency == b.members[p.instrument].currency;
    hide AffordableQuantity, TrimToCash, Rate, AgreeThrough;
  }

  lemma BarAgree(a: Inputs, b: Inputs, k: Session, id: Id, s: Session)
    requires ValidInputs(a) && ValidInputs(b) && AgreeThrough(a, b, k) && id in a.members && s <= k
    ensures s in a.members[id].opens <==> s in b.members[id].opens
    ensures s in a.members[id].opens ==> a.members[id].opens[s] == b.members[id].opens[s]
  {
    assert BarAt(a.members[id], s) == BarAt(b.members[id], s);
  }

  lemma {:induction false} ExecuteAllAgree(a: Inputs, b: Inputs, k: Session, x: State, y: State,
                                           ps: seq<Pending>, qs: seq<Pending>, s: Session)
    requires ValidInputs(a) && ValidInputs(b) && AgreeThrough(a, b, k) && s <= k
    requires SameRecord(x, y) && SameItems(ps, qs) && Known(a, ps) && Known(b, qs)
    ensures SameRecord(ExecuteAll(a, x, ps, s), ExecuteAll(b, y, qs, s))
    decreases |ps|
  {
    hide Execute;
    if ps != [] {
      var last := |ps| - 1;
      ExecuteAllAgree(a, b, k, x, y, ps[..last], qs[..last], s);
      ExecuteAgree(a, b, k, ExecuteAll(a, x, ps[..last], s), ExecuteAll(b, y, qs[..last], s), ps[last], qs[last], s);
    }
  }

  lemma {:induction false} ValueAllAgree(a: Inputs, b: Inputs, k: Session, holdings: map<Id, Holding>, ids: seq<Id>,
                                         s: Session)
    requires ValidInputs(a) && ValidInputs(b) && AgreeThrough(a, b, k) && s <= k
    requires Held(a, holdings, ids) && Held(b, holdings, ids)
    ensures ValueAll(a, holdings, ids, s) == ValueAll(b, holdings, ids, s)
    decreases |ids|
  {
    hide Mul, Div;
    if ids != [] {
      var last := |ids| - 1;
      ValueAllAgree(a, b, k, holdings, ids[..last], s);
      PriceAsOfAgree(a, b, k, ids[last], s);
      var priced := PriceAsOf(a, a.members[ids[last]], s);
      if priced.Some? { RateAgree(a, b, k, a.members[ids[last]].currency, priced.value.1); }
    }
  }

  lemma ScheduleAgree(a: Inputs, b: Inputs, k: Session, x: State, y: State, id: Id, d: Direction, s: Session,
                      budget: Dec)
    requires ValidInputs(a) && ValidInputs(b) && AgreeThrough(a, b, k) && s <= k && id in a.members
    requires SameRecord(x, y) && SameQueue(x, y, s + 1, k)
    ensures var x', y' := Schedule(a, x, id, d, s, budget), Schedule(b, y, id, d, s, budget);
            SameRecord(x', y') && SameQueue(x', y', s + 1, k)
  {
    NextWithinAgree(a, b, k, id, s);
    hide *;
    var next, next' := NextTradedSession(a, a.members[id], s), NextTradedSession(b, b.members[id], s);
    if next.At? && next.session <= k {
      ScheduleCases(a, x, id, d, s, budget);
      ScheduleCases(b, y, id, d, s, budget);
      var p, q := Pending(x.sequence + 1, id, s, d, budget), Pending(y.sequence + 1, id, s, d, budget);
      QueuedAgree(x, y, s, k, next.session, p, q);
      RecordCongruent(x, y, Schedule(a, x, id, d, s, budget), Schedule(b, y, id, d, s, budget));
    } else {
      ScheduleLater(a, x, id, d, s, budget, k);
      ScheduleLater(b, y, id, d, s, budget, k);
      QueueCongruent(x, y, Schedule(a, x, id, d, s, budget), Schedule(b, y, id, d, s, budget), s + 1, k);
    }
  }

  lemma RecordCongruent(x: State, y: State, x': State, y': State)
    requires SameRecord(x, y)
    requires x'.cash == x.cash && x'.holdings == x.holdings && x'.trades == x.trades && x'.positions == x.positions
    requires x'.equity == x.equity && x'.rebalances == x.rebalances && x'.draws == x.draws
    requires y'.cash == y.cash && y'.holdings == y.holdings && y'.trades == y.trades && y'.positions == y.positions
    requires y'.equity == y.equity && y'.rebalances == y.rebalances && y'.draws == y.draws
    ensures SameRecord(x', y')
  {
  }

  lemma QueueCongruent(x: State, y: State, x': State, y': State, from: Session, k: Session)
    requires SameRecord(x, y) && SameRecord(x, x') && SameRecord(y, y') && SameQueue(x, y, from, k)
    requires forall c: Session :: c <= k ==> Due(x'.queue, c) == Due(x.queue, c) && Due(y'.queue, c) == Due(y.queue, c)
    ensures SameRecord(x', y') && SameQueue(x', y', from, k)
  {
    hide SameItems;
  }

  /** Scheduling past k, or giving up, changes nothing due by k. */
  lemma ScheduleLater(inp: Inputs, x: State, id: Id, d: Direction, s: Session, budget: Dec, k: Session)
    requires ValidInputs(inp) && id in inp.members
    requires var next := NextTradedSession(inp, inp.members[id], s); next.At? ==> next.session > k
    ensures var x' := Schedule(inp, x, id, d, s, budget);
            SameRecord(x, x') && forall c: Session :: c <= k ==> Due(x'.queue, c) == Due(x.queue, c)
  {
    hide NextTradedSession, ValidInputs;
  }

  lemma QueuedAgree(x: State, y: State, s: Session, k: Session, c: Session, p: Pending, q: Pending)
    requires SameQueue(x, y, s + 1, k) && SameItem(p, q)
    ensures SameQueue(x.(queue := x.queue[c := Due(x.queue, c) + [p]]),
            y.(queue := y.queue[c := Due(y.queue, c) + [q]]), s + 1, k)
  {
    var x', y' := x.queue[c := Due(x.queue, c) + [p]], y.queue[c := Due(y.queue, c) + [q]];
    forall t: Session | s + 1 <= t <= k ensures SameItems(Due(x', t), Due(y', t)) {
      assert SameItems(Due(x.queue, t), Due(y.queue, t));
    }
  }

  lemma NextWithinAgree(a: Inputs, b: Inputs, k: Session, id: Id, s: Session)
    requires ValidInputs(a) && ValidInputs(b) && AgreeThrough(a, b, k) && id in a.members
    ensures id in b.members
    ensures var next, next' := NextTradedSession(a, a.members[id], s), NextTradedSession(b, b.members[id], s);
            next == next' || ((next.At? ==> next.session > k) && (next'.At? ==> next'.session > k))
  {
    var next, next' := NextTradedSession(a, a.members[id], s), NextTradedSession(b, b.members[id], s);
    if next.At? && next.session <= k {
      NextCarries(a, b, k, id, s);
    } else if next'.At? && next'.session <= k {
      AgreeSymmetric(a, b, k);
      NextCarries(b, a, k, id, s);
    }
  }

  lemma {:induction false} PlanSalesAgree(a: Inputs, b: Inputs, k: Session, x: State, y: State, ids: seq<Id>,
                                          selling: set<Id>, s: Session)
    requires ValidInputs(a) && ValidInputs(b) && AgreeThrough(a, b, k) && s <= k
    requires SameRecord(x, y) && SameQueue(x, y, s + 1, k) && Members(a, ids) && Members(b, ids)
    ensures var x', y' := PlanSales(a, x, ids, selling, s), PlanSales(b, y, ids, selling, s);
            SameRecord(x', y') && SameQueue(x', y', s + 1, k)
    decreases |ids|
  {
    hide Schedule;
    if ids != [] {
      var last := |ids| - 1;
      PlanSalesAgree(a, b, k, x, y, ids[..last], selling, s);
      ScheduleAgree(a, b, k, PlanSales(a, x, ids[..last], selling, s), PlanSales(b, y, ids[..last], selling, s),
                    ids[last], Sell, s, 0);
    }
  }

  lemma {:induction false} PlanEntriesAgree(a: Inputs, b: Inputs, k: Session, x: State, y: State, ranked: seq<Signal>,
                                            selling: set<Id>, desired: set<Id>, target: Dec, s: Session)
    requires ValidInputs(a) && ValidInputs(b) && AgreeThrough(a, b, k) && s <= k
    requires SameRecord(x, y) && SameQueue(x, y, s + 1, k) && Ranked(a, ranked) && Ranked(b, ranked)
    ensures var x' := PlanEntries(a, x, ranked, selling, desired, target, s);
            var y' := PlanEntries(b, y, ranked, selling, desired, target, s);
            SameRecord(x', y') && SameQueue(x', y', s + 1, k)
    decreases |ranked|
  {
    hide Schedule;
    if ranked != [] {
      var last := |ranked| - 1;
      PlanEntriesAgree(a, b, k, x, y, ranked[..last], selling, desired, target, s);
      ScheduleAgree(a, b, k, PlanEntries(a, x, ranked[..last], selling, desired, target, s),
                    PlanEntries(b, y, ranked[..last], selling, desired, target, s),
                    ranked[last].instrument, Buy, s, target);
    }
  }

  lemma ExecuteDueAgree(a: Inputs, b: Inputs, k: Session, x: State, y: State, s: Session)
    requires ValidInputs(a) && ValidInputs(b) && AgreeThrough(a, b, k) && s <= k
    requires Sound(a, x, s) && Sound(b, y, s) && SameRecord(x, y) && SameQueue(x, y, s, k)
    ensures var x', y' := ExecuteDue(a, x, s), ExecuteDue(b, y, s);
            SameRecord(x', y') && SameQueue(x', y', s + 1, k)
            && Sound(a, x', s + 1) && Sound(b, y', s + 1)
  {
    hide ExecuteAll, ValidInputs, AgreeThrough, SameItems;
    assert SameItems(Due(x.queue, s), Due(y.queue, s));
    ExecuteAllSound(a, x, Due(x.queue, s), s);
    ExecuteAllSound(b, y, Due(y.queue, s), s);
    ExecuteAllAgree(a, b, k, x, y, Due(x.queue, s), Due(y.queue, s), s);
    PopAgree(x.queue, y.queue, s, k);
  }

  lemma PopAgree(x: map<Session, seq<Pending>>, y: map<Session, seq<Pending>>, s: Session, k: Session)
    requires forall c: Session :: s <= c <= k ==> SameItems(Due(x, c), Due(y, c))
    ensures forall c: Session :: s + 1 <= c <= k ==> SameItems(Due(x - {s}, c), Due(y - {s}, c))
  {
    hide SameItems;
    forall c: Session | s + 1 <= c <= k ensures SameItems(Due(x - {s}, c), Due(y - {s}, c)) {
      assert SameItems(Due(x, c), Due(y, c));
    }
  }

  lemma RecordAgree(a: Inputs, b: Inputs, k: Session, x: State, y: State, s: Session)
    requires ValidInputs(a) && ValidInputs(b) && AgreeThrough(a, b, k) && s <= k
    requires Sound(a, x, s + 1) && Sound(b, y, s + 1) && SameRecord(x, y)
    ensures Value(a, x.holdings, s) == Value(b, y.holdings, s)
    ensures SameRecord(Record(a, x, s), Record(b, y, s))
  {
    hide ValueAll;
    ValueAllAgree(a, b, k, x.holdings, Sorted(x.holdings.Keys), s);
  }

  lemma RebalancedAgree(a: Inputs, b: Inputs, k: Session, x: State, y: State, s: Session)
    requires ValidInputs(a) && ValidInputs(b) && AgreeThrough(a, b, k) && s <= k
    requires Sound(a, x, s + 1) && Sound(b, y, s + 1) && SameRecord(x, y) && SameQueue(x, y, s + 1, k)
    requires Value(a, x.holdings, s) == Value(b, y.holdings, s)
    ensures var x', y' := Rebalanced(a, x, s), Rebalanced(b, y, s);
            SameRecord(x', y') && SameQueue(x', y', s + 1, k)
  {
    hide PlanSales, PlanEntries, Desired, Div, Value, Schedule;
    assert a.calendar[s] == a.calendar[..k + 1][s] == b.calendar[s];
    assert s > 0 ==> a.calendar[s - 1] == a.calendar[..k + 1][s - 1] == b.calendar[s - 1];
    if IsRebalance(a, s) {
      assert SignalsAt(a, s) == SignalsAt(b, s);
      var x', y' := x.(rebalances := x.rebalances + 1), y.(rebalances := y.rebalances + 1);
      var ranked, ids := SignalsAt(a, s), Sorted(x.holdings.Keys);
      var desired := Desired(ranked, a.configuration.sizingN);
      var selling := Selling(x.holdings, ranked, desired);
      PlanSalesAgree(a, b, k, x', y', ids, selling, s);
      PlanEntriesAgree(a, b, k, PlanSales(a, x', ids, selling, s), PlanSales(b, y', ids, selling, s),
                       ranked, selling, desired, Target(a, x.cash, Value(a, x.holdings, s)), s);
      PlanSalesSound(a, x', ids, selling, s);
      PlanSalesSound(b, y', ids, selling, s);
    }
  }

  lemma StepAgree(a: Inputs, b: Inputs, k: Session, x: State, y: State, s: Session)
    requires ValidInputs(a) && ValidInputs(b) && AgreeThrough(a, b, k) && s <= k
    requires Sound(a, x, s) && Sound(b, y, s) && SameRecord(x, y) && SameQueue(x, y, s, k)
    ensures SameRecord(Step(a, x, s), Step(b, y, s)) && SameQueue(Step(a, x, s), Step(b, y, s), s + 1, k)
  {
    hide ExecuteDue, Value, Rebalanced;
    ExecuteDueAgree(a, b, k, x, y, s);
    RecordAgree(a, b, k, ExecuteDue(a, x, s), ExecuteDue(b, y, s), s);
    RebalancedAgree(a, b, k, Record(a, ExecuteDue(a, x, s), s), Record(b, ExecuteDue(b, y, s), s), s);
  }

  lemma {:induction false} RunAgree(a: Inputs, b: Inputs, capital: Dec, k: Session, j: nat)
    requires ValidInputs(a) && ValidInputs(b) && AgreeThrough(a, b, k) && j <= k + 1
    ensures SameRecord(Run(a, capital, j), Run(b, capital, j))
    ensures SameQueue(Run(a, capital, j), Run(b, capital, j), j, k)
  {
    hide Step;
    if j > 0 {
      RunAgree(a, b, capital, k, j - 1);
      StepAgree(a, b, k, Run(a, capital, j - 1), Run(b, capital, j - 1), j - 1);
    }
  }

  // ---- What a whole run recorded by k ---------------------------------------------------------

  function ExecutedBy(trades: seq<Trade>, k: Session): seq<Trade> {
    if trades == [] then []
    else
      var last := |trades| - 1;
      ExecutedBy(trades[..last], k) + (if trades[last].executionSession <= k then [trades[last]] else [])
  }

  function PositionsThrough(rows: seq<Position>, k: Session): seq<Position> {
    if rows == [] then []
    else
      var last := |rows| - 1;
      PositionsThrough(rows[..last], k) + (if rows[last].session <= k then [rows[last]] else [])
  }

  function EquityThrough(points: seq<EquityPoint>, k: Session): seq<EquityPoint> {
    if points == [] then []
    else
      var last := |points| - 1;
      EquityThrough(points[..last], k) + (if points[last].session <= k then [points[last]] else [])
  }

  ghost predicate RecordedWithin(st: State, before: Session) {
    && (forall i :: 0 <= i < |st.trades| ==> st.trades[i].executionSession < before)
    && (forall i :: 0 <= i < |st.positions| ==> st.positions[i].session < before)
    && (forall i :: 0 <= i < |st.equity| ==> st.equity[i].session < before)
  }

  lemma {:induction false} ExecuteAllStamps(inp: Inputs, st: State, items: seq<Pending>, s: Session)
    requires ValidInputs(inp) && Known(inp, items)
    ensures var done := ExecuteAll(inp, st, items, s);
            && |done.trades| >= |st.trades| && done.trades[..|st.trades|] == st.trades
            && forall i :: |st.trades| <= i < |done.trades| ==> done.trades[i].executionSession == s
    decreases |items|
  {
    hide Decide, Price;
    if items != [] {
      ExecuteAllStamps(inp, st, items[..|items| - 1], s);
    }
  }

  lemma {:induction false} ValueAllStamps(inp: Inputs, holdings: map<Id, Holding>, ids: seq<Id>, s: Session)
    requires ValidInputs(inp) && Held(inp, holdings, ids)
    ensures var v := ValueAll(inp, holdings, ids, s);
            |v.positions| == |ids| && forall i :: 0 <= i < |ids| ==>
              v.positions[i].session == s && v.positions[i].instrument == ids[i]
    decreases |ids|
  {
    hide MarkOf;
    if ids != [] { ValueAllStamps(inp, holdings, ids[..|ids| - 1], s); }
  }

  lemma {:induction false} PlanRecordsNothing(inp: Inputs, st: State, s: Session)
    requires ValidInputs(inp) && Sound(inp, st, s + 1) && s < |inp.calendar|
    ensures var next := Rebalanced(inp, st, s);
            && next.trades == st.trades && next.positions == st.positions && next.equity == st.equity
            && next.holdings == st.holdings && next.cash == st.cash
  {
    hide PlanSales, PlanEntries, Value, Div, Desired;
    if IsRebalance(inp, s) {
      var start := st.(rebalances := st.rebalances + 1);
      var ranked := SignalsAt(inp, s);
      var desired := Desired(ranked, inp.configuration.sizingN);
      var selling := Selling(st.holdings, ranked, desired);
      SalesRecordNothing(inp, start, Sorted(st.holdings.Keys), selling, s);
      EntriesRecordNothing(inp, PlanSales(inp, start, Sorted(st.holdings.Keys), selling, s), ranked, selling, desired,
                           Target(inp, st.cash, Value(inp, st.holdings, s)), s);
    }
  }

  lemma {:induction false} SalesRecordNothing(inp: Inputs, st: State, ids: seq<Id>, selling: set<Id>, s: Session)
    requires Members(inp, ids)
    ensures var next := PlanSales(inp, st, ids, selling, s);
            && next.trades == st.trades && next.positions == st.positions && next.equity == st.equity
            && next.holdings == st.holdings && next.cash == st.cash
    decreases |ids|
  {
    if ids != [] { SalesRecordNothing(inp, st, ids[..|ids| - 1], selling, s); }
  }

  lemma {:induction false} EntriesRecordNothing(inp: Inputs, st: State, ranked: seq<Signal>, selling: set<Id>,
                                                desired: set<Id>, target: Dec, s: Session)
    requires Ranked(inp, ranked)
    ensures var next := PlanEntries(inp, st, ranked, selling, desired, target, s);
            && next.trades == st.trades && next.positions == st.positions && next.equity == st.equity
            && next.holdings == st.holdings && next.cash == st.cash
    decreases |ranked|
  {
    if ranked != [] { EntriesRecordNothing(inp, st, ranked[..|ranked| - 1], selling, desired, target, s); }
  }

  /** A session only appends to the record, and stamps what it appends with itself. */
  lemma StepAppends(inp: Inputs, st: State, s: Session)
    requires ValidInputs(inp) && Sound(inp, st, s) && s < |inp.calendar|
    ensures var next := Step(inp, st, s);
            && st.trades <= next.trades && st.positions <= next.positions && st.equity <= next.equity
            && (forall i :: |st.trades| <= i < |next.trades| ==> next.trades[i].executionSession == s)
            && (forall i :: |st.positions| <= i < |next.positions| ==> next.positions[i].session == s)
            && (forall i :: |st.equity| <= i < |next.equity| ==> next.equity[i].session == s)
  {
    hide ExecuteAll, ValueAll, Rebalanced;
    ExecuteAllSound(inp, st, Due(st.queue, s), s);
    ExecuteAllStamps(inp, st, Due(st.queue, s), s);
    var executed := ExecuteDue(inp, st, s);
    ValueAllStamps(inp, executed.holdings, Sorted(executed.holdings.Keys), s);
    PlanRecordsNothing(inp, Record(inp, executed, s), s);
  }

  lemma {:induction false} FilterTrades(xs: seq<Trade>, ys: seq<Trade>, k: Session)
    requires xs <= ys && (forall i :: 0 <= i < |xs| ==> xs[i].executionSession <= k)
    requires forall i :: |xs| <= i < |ys| ==> ys[i].executionSession > k
    ensures ExecutedBy(ys, k) == xs
    decreases |ys|
  {
    if ys != [] {
      var last := |ys| - 1;
      if |xs| == |ys| { FilterTrades(xs[..last], ys[..last], k); } else { FilterTrades(xs, ys[..last], k); }
    }
  }

  lemma {:induction false} FilterPositions(xs: seq<Position>, ys: seq<Position>, k: Session)
    requires xs <= ys && (forall i :: 0 <= i < |xs| ==> xs[i].session <= k)
    requires forall i :: |xs| <= i < |ys| ==> ys[i].session > k
    ensures PositionsThrough(ys, k) == xs
    decreases |ys|
  {
    if ys != [] {
      var last := |ys| - 1;
      if |xs| == |ys| { FilterPositions(xs[..last], ys[..last], k); } else { FilterPositions(xs, ys[..last], k); }
    }
  }

  lemma {:induction false} FilterEquity(xs: seq<EquityPoint>, ys: seq<EquityPoint>, k: Session)
    requires xs <= ys && (forall i :: 0 <= i < |xs| ==> xs[i].session <= k)
    requires forall i :: |xs| <= i < |ys| ==> ys[i].session > k
    ensures EquityThrough(ys, k) == xs
    decreases |ys|
  {
    if ys != [] {
      var last := |ys| - 1;
      if |xs| == |ys| { FilterEquity(xs[..last], ys[..last], k); } else { FilterEquity(xs, ys[..last], k); }
    }
  }

  lemma {:induction false} RunWithin(inp: Inputs, capital: Dec, j: nat)
    requires ValidInputs(inp) && j <= |inp.calendar|
    ensures RecordedWithin(Run(inp, capital, j), j)
  {
    hide Step;
    if j > 0 {
      RunWithin(inp, capital, j - 1);
      StepAppends(inp, Run(inp, capital, j - 1), j - 1);
    }
  }

  /** What a run recorded in its first j sessions is what any longer run records by then. */
  lemma {:induction false} RunRemembers(inp: Inputs, capital: Dec, j: nat, n: nat)
    requires ValidInputs(inp) && j <= n <= |inp.calendar|
    ensures var x, y := Run(inp, capital, j), Run(inp, capital, n);
            && x.trades <= y.trades && x.positions <= y.positions && x.equity <= y.equity
            && (forall i :: |x.trades| <= i < |y.trades| ==> y.trades[i].executionSession >= j)
            && (forall i :: |x.positions| <= i < |y.positions| ==> y.positions[i].session >= j)
            && (forall i :: |x.equity| <= i < |y.equity| ==> y.equity[i].session >= j)
    decreases n - j
  {
    hide Step;
    if j < n {
      RunRemembers(inp, capital, j, n - 1);
      StepAppends(inp, Run(inp, capital, n - 1), n - 1);
    }
  }

  lemma FilterRun(inp: Inputs, capital: Dec, k: Session)
    requires ValidInputs(inp) && k < |inp.calendar|
    ensures var x, y := Run(inp, capital, k + 1), Run(inp, capital, |inp.calendar|);
            ExecutedBy(y.trades, k) == x.trades && PositionsThrough(y.positions, k) == x.positions
            && EquityThrough(y.equity, k) == x.equity
  {
    hide Run, ExecutedBy, PositionsThrough, EquityThrough;
    RunWithin(inp, capital, k + 1);
    RunRemembers(inp, capital, k + 1, |inp.calendar|);
    var x, y := Run(inp, capital, k + 1), Run(inp, capital, |inp.calendar|);
    FilterTrades(x.trades, y.trades, k);
    FilterPositions(x.positions, y.positions, k);
    FilterEquity(x.equity, y.equity, k);
  }

  /** No lookahead: two whole runs under one configuration, over inputs that agree
      through session k and differ arbitrarily after it, executed the same trades
      by k and recorded the same positions and equity through k. */
  lemma RunsAgreeThrough(a: Inputs, b: Inputs, capital: Dec, k: Session)
    requires ValidInputs(a) && ValidInputs(b) && AgreeThrough(a, b, k)
    ensures var x, y := Run(a, capital, |a.calendar|), Run(b, capital, |b.calendar|);
            && ExecutedBy(x.trades, k) == ExecutedBy(y.trades, k)
            && PositionsThrough(x.positions, k) == PositionsThrough(y.positions, k)
            && EquityThrough(x.equity, k) == EquityThrough(y.equity, k)
  {
    hide Run, ExecutedBy, PositionsThrough, EquityThrough;
    RunAgree(a, b, capital, k, k + 1);
    FilterRun(a, capital, k);
    FilterRun(b, capital, k);
  }
}

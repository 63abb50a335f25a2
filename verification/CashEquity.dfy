/** Cash is conserved, equity is cash plus positions or is withheld, and only a
    sale can take cash below zero. */
module CashEquity {
  import opened Prelude
  import opened Decimal
  import opened Costs
  import opened BacktestModel
  import opened Ordering
  import opened NoLookahead

  /** The starting capital and every cash effect of these trades. */
  function CashAfter(capital: Dec, trades: seq<Trade>): Dec {
    if trades == [] then capital
    else CashAfter(capital, trades[..|trades| - 1]) + trades[|trades| - 1].cashEffect
  }

  function Gross(t: Trade): Dec
    requires t.conversion.Usable()
  {
    ToAccounting(Mul(t.price, t.quantity), t.conversion)
  }

  function TotalCosts(t: Trade): Dec {
    t.slippage + t.spread + t.brokerage
  }

  /** What every trade of a run is, given the cash before it. */
  ghost predicate Honest(t: Trade, before: Dec) {
    && t.conversion.Usable()
    && t.cashEffect == (if t.direction == Buy then -Gross(t) - TotalCosts(t) else Gross(t) - TotalCosts(t))
    && (t.direction == Buy ==> t.quantity > 0 && before + t.cashEffect >= 0)
  }

  ghost predicate AllHonest(capital: Dec, trades: seq<Trade>) {
    forall i :: 0 <= i < |trades| ==> Honest(trades[i], CashAfter(capital, trades[..i]))
  }

  ghost predicate CashKept(capital: Dec, st: State) {
    st.cash == CashAfter(capital, st.trades) && AllHonest(capital, st.trades)
  }

  lemma FilledTradeIsHonest(inp: Inputs, st: State, item: Pending, s: Session)
    requires ValidInputs(inp) && item.instrument in inp.members
    requires Decide(inp, st.cash, st.holdings, item, s).Fill?
    ensures Honest(TradeOf(inp, item, s, Decide(inp, st.cash, st.holdings, item, s)), st.cash)
  {
    hide AffordableQuantity, Mul, ToAccounting, ValidInputs, TrimToCash;
    var d := Decide(inp, st.cash, st.holdings, item, s);
    CashReconciles(inp.configuration.costs, item.direction, d.quantity, d.price, d.conversion);
    if item.direction == Buy {
      var budget := if st.cash < item.budget then st.cash else item.budget;
      TrimCovers(inp.configuration.costs, st.cash,
        AffordableQuantity(inp.configuration.costs, budget, d.price, d.conversion), d.price, d.conversion);
    }
  }

  lemma ExecuteKeepsCash(inp: Inputs, capital: Dec, st: State, item: Pending, s: Session)
    requires ValidInputs(inp) && item.instrument in inp.members && CashKept(capital, st)
    ensures CashKept(capital, Execute(inp, st, item, s))
  {
    hide Decide, ValidInputs, Honest, TradeOf, AllHonest, CashAfter;
    var d := Decide(inp, st.cash, st.holdings, item, s);
    if d.Fill? {
      FilledTradeIsHonest(inp, st, item, s);
      HonestAppend(capital, st.trades, TradeOf(inp, item, s, d));
    }
  }

  lemma HonestAppend(capital: Dec, trades: seq<Trade>, t: Trade)
    requires AllHonest(capital, trades) && Honest(t, CashAfter(capital, trades))
    ensures AllHonest(capital, trades + [t])
    ensures CashAfter(capital, trades + [t]) == CashAfter(capital, trades) + t.cashEffect
  {
    hide Honest;
    var all := trades + [t];
    assert all[..|all| - 1] == trades;
    forall i | 0 <= i < |all| ensures Honest(all[i], CashAfter(capital, all[..i])) {
      assert i < |trades| ==> all[..i] == trades[..i];
    }
  }

  lemma {:induction false} ExecuteAllKeepsCash(inp: Inputs, capital: Dec, st: State, items: seq<Pending>, s: Session)
    requires ValidInputs(inp) && Known(inp, items) && CashKept(capital, st)
    ensures CashKept(capital, ExecuteAll(inp, st, items, s))
    decreases |items|
  {
    hide CashKept, Execute;
    if items != [] {
      var last := |items| - 1;
      ExecuteAllKeepsCash(inp, capital, st, items[..last], s);
      ExecuteKeepsCash(inp, capital, ExecuteAll(inp, st, items[..last], s), items[last], s);
    }
  }

  // ---- A session's valuation ------------------------------------------------------------------

  function SumOfValues(rows: seq<Position>): Dec {
    if rows == [] then 0
    else
      var last := |rows| - 1;
      SumOfValues(rows[..last]) + (if rows[last].mark.Valued? then rows[last].mark.value else 0)
  }

  ghost predicate AllValued(rows: seq<Position>) {
    forall i :: 0 <= i < |rows| ==> rows[i].mark.Valued?
  }

  lemma {:induction false} ValueAllAdds(inp: Inputs, holdings: map<Id, Holding>, ids: seq<Id>, s: Session)
    requires ValidInputs(inp) && Held(inp, holdings, ids)
    ensures var v := ValueAll(inp, holdings, ids, s);
            v.positionValue == SumOfValues(v.positions) && (v.complete <==> AllValued(v.positions))
    decreases |ids|
  {
    hide MarkOf, ValidInputs;
    if ids != [] {
      var last := |ids| - 1;
      ValueAllAdds(inp, holdings, ids[..last], s);
      var before, v := ValueAll(inp, holdings, ids[..last], s), ValueAll(inp, holdings, ids, s);
      assert v.positions[..|v.positions| - 1] == before.positions;
    }
  }

  function PositionsAt(rows: seq<Position>, s: Session): seq<Position> {
    if rows == [] then []
    else
      var last := |rows| - 1;
      PositionsAt(rows[..last], s) + (if rows[last].session == s then [rows[last]] else [])
  }

  /** One session's equity row against the trades and position rows of the run. */
  ghost predicate Reconciles(capital: Dec, point: EquityPoint, s: Session, trades: seq<Trade>,
                             positions: seq<Position>) {
    var rows := PositionsAt(positions, s);
    && point.session == s
    && point.cash == CashAfter(capital, ExecutedBy(trades, s))
    && (point.stated.Some? <==> AllValued(rows))
    && (point.stated.Some? ==>
          point.stated.value == Statement(SumOfValues(rows), point.cash + SumOfValues(rows)))
  }

  lemma {:induction false} RowsAtNone(rows: seq<Position>, s: Session)
    requires forall i :: 0 <= i < |rows| ==> rows[i].session != s
    ensures PositionsAt(rows, s) == []
    decreases |rows|
  {
    if rows != [] { RowsAtNone(rows[..|rows| - 1], s); }
  }

  lemma {:induction false} RowsAtAppend(earlier: seq<Position>, added: seq<Position>, s: Session)
    requires forall i :: 0 <= i < |added| ==> added[i].session == s
    requires forall i :: 0 <= i < |earlier| ==> earlier[i].session < s
    ensures PositionsAt(earlier + added, s) == added
    ensures forall j: Session :: j < s ==> PositionsAt(earlier + added, j) == PositionsAt(earlier, j)
    decreases |added|
  {
    var rows := earlier + added;
    if added == [] {
      assert rows == earlier;
      RowsAtNone(earlier, s);
    } else {
      var last := |added| - 1;
      assert rows[..|rows| - 1] == earlier + added[..last];
      assert rows[|rows| - 1] == added[last];
      RowsAtAppend(earlier, added[..last], s);
      assert added == added[..last] + [added[last]];
    }
  }

  lemma {:induction false} ExecutedByAppend(earlier: seq<Trade>, all: seq<Trade>, s: Session)
    requires earlier <= all && forall i :: |earlier| <= i < |all| ==> all[i].executionSession == s
    ensures forall j: Session :: j < s ==> ExecutedBy(all, j) == ExecutedBy(earlier, j)
    decreases |all|
  {
    if |earlier| < |all| {
      ExecutedByAppend(earlier, all[..|all| - 1], s);
    } else {
      assert earlier == all;
    }
  }

  lemma {:induction false} ExecutedByAll(trades: seq<Trade>, s: Session)
    requires forall i :: 0 <= i < |trades| ==> trades[i].executionSession <= s
    ensures ExecutedBy(trades, s) == trades
    decreases |trades|
  {
    if trades != [] { ExecutedByAll(trades[..|trades| - 1], s); }
  }

  ghost predicate AllReconcile(capital: Dec, st: State, k: nat) {
    |st.equity| == k
    && forall s :: 0 <= s < k ==> Reconciles(capital, st.equity[s], s, st.trades, st.positions)
  }

  /** A session's own row, before later sessions append to the lists. */
  lemma StepReconciles(inp: Inputs, capital: Dec, st: State, s: Session)
    requires ValidInputs(inp) && Sound(inp, st, s) && s < |inp.calendar|
    requires CashKept(capital, st) && RecordedWithin(st, s) && |st.equity| == s
    ensures var next := Step(inp, st, s);
            CashKept(capital, next) && |next.equity| == s + 1
            && Reconciles(capital, next.equity[s], s, next.trades, next.positions)
  {
    hide ExecuteAll, ValueAll, Rebalanced, CashKept, PositionsAt, ExecutedBy, SumOfValues, CashAfter, ValidInputs;
    var items := Due(st.queue, s);
    ExecuteAllSound(inp, st, items, s);
    ExecuteAllKeepsCash(inp, capital, st, items, s);
    ExecuteAllStamps(inp, st, items, s);
    var executed := ExecuteDue(inp, st, s);
    KeepsCashCongruent(capital, ExecuteAll(inp, st, items, s), executed);
    var ids := Sorted(executed.holdings.Keys);
    ValueAllStamps(inp, executed.holdings, ids, s);
    ValueAllAdds(inp, executed.holdings, ids, s);
    var v := Value(inp, executed.holdings, s);
    var recorded := Record(inp, executed, s);
    RowsAtAppend(st.positions, v.positions, s);
    ExecutedByAll(executed.trades, s);
    PlanRecordsNothing(inp, recorded, s);
    RebalancedSound(inp, recorded, s);
    KeepsCashCongruent(capital, executed, recorded);
    KeepsCashCongruent(capital, recorded, Step(inp, st, s));
    CashKeptMeans(capital, executed);
  }

  lemma KeepsCashCongruent(capital: Dec, x: State, y: State)
    requires CashKept(capital, x) && x.cash == y.cash && x.trades == y.trades
    ensures CashKept(capital, y)
  {
  }

  lemma CashKeptMeans(capital: Dec, st: State)
    requires CashKept(capital, st)
    ensures st.cash == CashAfter(capital, st.trades)
  {
  }

  /** Cash and equity over every run, at every point of it: the cash is the starting
      capital plus every cash effect so far; each recorded session states that
      session's cash, and a total that is it plus the sum of that session's position
      values, withheld exactly when some position could not be valued. */
  lemma {:induction false} BooksBalance(inp: Inputs, capital: Dec, k: nat)
    requires ValidInputs(inp) && k <= |inp.calendar|
    ensures var st := Run(inp, capital, k);
            CashKept(capital, st) && AllReconcile(capital, st, k)
  {
    hide Step, Reconciles, CashKept, ValidInputs;
    if k == 0 {
      CashAtStart(capital);
    } else {
      BooksBalance(inp, capital, k - 1);
      var before, next := Run(inp, capital, k - 1), Run(inp, capital, k);
      RunWithin(inp, capital, k - 1);
      StepReconciles(inp, capital, before, k - 1);
      StepAppends(inp, before, k - 1);
      EarlierRowsKept(capital, before, next, k - 1);
    }
  }

  lemma CashAtStart(capital: Dec)
    ensures CashKept(capital, Initial(capital))
  {
  }

  /** Appending a session's rows leaves every earlier session's row reconciled. */
  lemma EarlierRowsKept(capital: Dec, before: State, next: State, s: Session)
    requires AllReconcile(capital, before, s) && RecordedWithin(before, s)
    requires before.trades <= next.trades && before.positions <= next.positions && before.equity <= next.equity
    requires forall i :: |before.trades| <= i < |next.trades| ==> next.trades[i].executionSession == s
    requires forall i :: |before.positions| <= i < |next.positions| ==> next.positions[i].session == s
    requires |next.equity| == s + 1 && Reconciles(capital, next.equity[s], s, next.trades, next.positions)
    ensures AllReconcile(capital, next, s + 1)
  {
    hide Reconciles, PositionsAt, ExecutedBy;
    var added := next.positions[|before.positions|..];
    assert next.positions == before.positions + added;
    RowsAtAppend(before.positions, added, s);
    ExecutedByAppend(before.trades, next.trades, s);
    forall j | 0 <= j < s + 1 ensures Reconciles(capital, next.equity[j], j, next.trades, next.positions) {
      if j < s {
        assert next.equity[j] == before.equity[j];
        ReconcilesCongruent(capital, before.equity[j], j, before.trades, before.positions, next.trades, next.positions);
      }
    }
  }

  lemma ReconcilesCongruent(capital: Dec, point: EquityPoint, s: Session, trades: seq<Trade>, positions: seq<Position>,
                            trades': seq<Trade>, positions': seq<Position>)
    requires Reconciles(capital, point, s, trades, positions)
    requires ExecutedBy(trades, s) == ExecutedBy(trades', s) && PositionsAt(positions, s) == PositionsAt(positions', s)
    ensures Reconciles(capital, point, s, trades', positions')
  {
  }

  /** Spending is covered: over every run each buy leaves the cash non-negative, cash falls at a
      sale exactly when its costs exceed its consideration, and a trade takes it below zero
      exactly when it is a sale whose costs exceed its consideration by more than there is. */
  lemma OnlyACostlySaleOverdraws(inp: Inputs, capital: Dec, k: nat, i: nat)
    requires ValidInputs(inp) && k <= |inp.calendar| && i < |Run(inp, capital, k).trades|
    ensures var trades := Run(inp, capital, k).trades;
            var t := trades[i];
            var before, after := CashAfter(capital, trades[..i]), CashAfter(capital, trades[..i + 1]);
            && t.conversion.Usable()
            && (t.direction == Buy ==> after >= 0)
            && (t.direction == Sell ==> (after < before <==> TotalCosts(t) > Gross(t)))
            && (before >= 0 ==> (after < 0 <==> t.direction == Sell && TotalCosts(t) - Gross(t) > before))
  {
    hide Run, Gross, TotalCosts;
    BooksBalance(inp, capital, k);
    var trades := Run(inp, capital, k).trades;
    assert Honest(trades[i], CashAfter(capital, trades[..i]));
    assert trades[..i + 1][..i] == trades[..i];
  }
}

/** A run that ends with less than nothing: the brokerage minimum of its one sale exceeds the
    proceeds, and no cash is left to meet it. */
module Overdraft {
  import opened Prelude
  import opened Decimal
  import opened Costs
  import opened BacktestModel
  import opened Ordering
  import opened CashEquity
  import Outcomes
  import NoLookahead

  /** One instrument at a price of 1 on three sessions, ranked first and then no longer scored,
      and a brokerage minimum of 2. */
  function MinimumInputs(): Inputs {
    var prices: map<Session, Dec> := map[0 := ONE, 1 := ONE, 2 := ONE];
    Inputs(Configuration("SEK", 1, Daily, 5, Model(0, 0, 0, 2 * ONE)), [Day(1, 1), Day(1, 1), Day(1, 1)],
           map[7 := Instrument("SEK", [0, 1, 2], prices, prices)], map[],
           map[0 := [Signal(7, true)], 1 := [Signal(7, false)]], {})
  }

  lemma MinimumInputsAreValid()
    ensures ValidInputs(MinimumInputs()) && |MinimumInputs().calendar| == 3
  {
    assert ValidInstrument(MinimumInputs().members[7], 3);
  }

  lemma NextIsNext(s: Session)
    requires s < 2
    ensures NextTradedSession(MinimumInputs(), MinimumInputs().members[7], s) == At(s + 1)
  {
    var traded := MinimumInputs().members[7].traded;
    assert FirstAfter(traded, s) == s + 1 by { assert traded[1..] == [1, 2] && traded[1..][1..] == [2]; }
  }

  lemma QueueOfOne(queue: map<Session, seq<Pending>>, c: Session, item: Pending)
    requires queue == map[]
    ensures queue[c := Due(queue, c) + [item]] == map[c := [item]]
  {
    assert Due(queue, c) + [item] == [item];
  }

  /** Planning the purchase on the first session. */
  lemma Entry(start: State)
    requires ValidInputs(MinimumInputs()) && start.holdings == map[] && start.queue == map[] && start.sequence == 0
    requires Ranked(MinimumInputs(), [Signal(7, true)])
    ensures PlanEntries(MinimumInputs(), start, [Signal(7, true)], {}, {7}, 3 * ONE, 0)
         == start.(sequence := 1, queue := map[1 := [Pending(1, 7, 0, Buy, 3 * ONE)]])
  {
    var inp, ranked := MinimumInputs(), [Signal(7, true)];
    assert ranked[..0] == [];
    NextIsNext(0);
    hide NextTradedSession;
    assert PlanEntries(inp, start, ranked[..0], {}, {7}, 3 * ONE, 0) == start;
    QueueOfOne(start.queue, 1, Pending(1, 7, 0, Buy, 3 * ONE));
  }

  lemma FirstSession()
    requires ValidInputs(MinimumInputs())
    ensures var st := Run(MinimumInputs(), 3 * ONE, 1);
            && st.cash == 3 * ONE && st.holdings == map[] && st.trades == [] && st.draws == 0 && st.sequence == 1
            && st.queue == map[1 := [Pending(1, 7, 0, Buy, 3 * ONE)]]
  {
    var inp, st := MinimumInputs(), Initial(3 * ONE);
    assert Run(inp, 3 * ONE, 0) == st;
    var recorded := Record(inp, ExecuteDue(inp, st, 0), 0);
    assert Sorted(st.holdings.Keys) == [];
    var ranked := SignalsAt(inp, 0);
    assert ranked == [Signal(7, true)] && ranked[..0] == [];
    assert Desired(ranked, 1) == {7} by { assert Desired([], 1) == {}; }
    assert Selling(map[], ranked, {7}) == {};
    assert Target(inp, st.cash, Value(inp, map[], 0)) == 3 * ONE by { HalfEvenExact(3 * ONE, FromInt(1)); }
    hide PlanEntries, Target, Desired, ValidInputs;
    Entry(recorded.(rebalances := recorded.rebalances + 1));
  }

  /** The purchase takes all the cash: one share and the minimum. */
  lemma Bought(st: State)
    requires ValidInputs(MinimumInputs()) && st.cash == 3 * ONE && st.draws == 0 && st.holdings == map[]
    ensures var next := Execute(MinimumInputs(), st, Pending(1, 7, 0, Buy, 3 * ONE), 1);
            next.cash == 0 && next.holdings == map[7 := Holding(ONE, 0)] && next.queue == st.queue
              && next.sequence == st.sequence
            && next.draws == 1
  {
    var inp, item := MinimumInputs(), Pending(1, 7, 0, Buy, 3 * ONE);
    var costs := inp.configuration.costs;
    assert Mul(ONE, 0) == 0;
    assert PerShare(costs, ONE, Same) == ONE;
    HalfEvenExact(ONE, ONE);
    assert AffordableQuantity(costs, 3 * ONE, ONE, Same) == FromInt(1);
    MulWhole(ONE, 1);
    assert Price(costs, Buy, FromInt(1), ONE, Same).cashEffect == -3 * ONE;
    assert TrimToCash(costs, st.cash, FromInt(1), ONE, Same) == FromInt(1);
    assert Decide(inp, st.cash, st.holdings, item, 1) == Fill(FromInt(1), ONE, Same);
  }

  /** The sale brings one in and takes two. */
  lemma Sold(st: State)
    requires ValidInputs(MinimumInputs()) && st.cash == 0 && st.holdings == map[7 := Holding(ONE, 0)]
    ensures Execute(MinimumInputs(), st, Pending(2, 7, 1, Sell, 0), 2).cash == -ONE
  {
    var inp := MinimumInputs();
    var costs := inp.configuration.costs;
    assert Mul(ONE, 0) == 0;
    MulWhole(ONE, 1);
    assert Price(costs, Sell, ONE, ONE, Same).cashEffect == -ONE;
    assert Decide(inp, st.cash, st.holdings, Pending(2, 7, 1, Sell, 0), 2) == Fill(ONE, ONE, Same);
  }

  /** Executing a queue of one. */
  lemma DueIsOne(inp: Inputs, st: State, item: Pending, s: Session)
    requires ValidInputs(inp) && Sound(inp, st, s) && st.queue == map[s := [item]]
    ensures item.instrument in inp.members
    ensures ExecuteDue(inp, st, s) == Execute(inp, st, item, s).(queue := Execute(inp, st, item, s).queue - {s})
  {
    hide Execute, ValidInputs;
    assert [item][..0] == [] && Due(st.queue, s) == [item];
    assert item.instrument in inp.members by { assert st.queue[s][0] == item; }
    assert ExecuteAll(inp, st, [item][..0], s) == st;
  }

  /** Planning the sale on the second. */
  lemma Exit(start: State)
    requires ValidInputs(MinimumInputs()) && start.holdings == map[7 := Holding(ONE, 0)] && start.queue == map[]
             && start.sequence == 1
    requires Ranked(MinimumInputs(), [Signal(7, false)]) && Members(MinimumInputs(), [7])
    ensures var sold := PlanSales(MinimumInputs(), start, [7], {7}, 1);
            && sold == start.(sequence := 2, queue := map[2 := [Pending(2, 7, 1, Sell, 0)]])
            && forall target :: PlanEntries(MinimumInputs(), sold, [Signal(7, false)], {7}, {}, target, 1) == sold
  {
    var inp, ranked := MinimumInputs(), [Signal(7, false)];
    assert ranked[..0] == [] && [7][..0] == [];
    NextIsNext(1);
    hide NextTradedSession;
    assert PlanSales(inp, start, [7][..0], {7}, 1) == start;
    QueueOfOne(start.queue, 2, Pending(2, 7, 1, Sell, 0));
    var sold := PlanSales(inp, start, [7], {7}, 1);
    forall target ensures PlanEntries(inp, sold, ranked, {7}, {}, target, 1) == sold {
      assert PlanEntries(inp, sold, ranked[..0], {7}, {}, target, 1) == sold;
    }
  }

  lemma SecondSession(st: State)
    requires ValidInputs(MinimumInputs()) && Sound(MinimumInputs(), st, 1) && st.cash == 3 * ONE && st.holdings == map[]
    requires st.draws == 0 && st.sequence == 1 && st.queue == map[1 := [Pending(1, 7, 0, Buy, 3 * ONE)]]
    ensures var next := Step(MinimumInputs(), st, 1);
            && next.cash == 0 && next.holdings == map[7 := Holding(ONE, 0)]
            && next.queue == map[2 := [Pending(2, 7, 1, Sell, 0)]]
  {
    var inp := MinimumInputs();
    MinimumInputsAreValid();
    Bought(st);
    DueIsOne(inp, st, Pending(1, 7, 0, Buy, 3 * ONE), 1);
    Outcomes.ExecuteDueSound(inp, st, 1);
    var recorded := Record(inp, ExecuteDue(inp, st, 1), 1);
    assert recorded.queue == map[] by { assert map[1 := [Pending(1, 7, 0, Buy, 3 * ONE)]] - {1} == map[]; }
    hide Execute, ExecuteDue, Value, Rebalanced, MinimumInputs, ValidInputs;
    SecondPlan(recorded);
  }

  lemma SecondPlan(recorded: State)
    requires ValidInputs(MinimumInputs()) && Sound(MinimumInputs(), recorded, 2) && |MinimumInputs().calendar| == 3
    requires recorded.holdings == map[7 := Holding(ONE, 0)] && recorded.queue == map[] && recorded.sequence == 1
    ensures Rebalanced(MinimumInputs(), recorded, 1)
         == recorded.(rebalances := recorded.rebalances + 1, sequence := 2,
                      queue := map[2 := [Pending(2, 7, 1, Sell, 0)]])
  {
    var start := recorded.(rebalances := recorded.rebalances + 1);
    SecondRanking(start.holdings);
    OneHeld(start.holdings);
    hide MinimumInputs, ValidInputs, IsRebalance, Desired, Selling, PlanSales, PlanEntries, Target, Value, Sorted;
    Exit(start);
  }

  lemma SecondRanking(holdings: map<Id, Holding>)
    requires holdings == map[7 := Holding(ONE, 0)]
    ensures |MinimumInputs().calendar| == 3 && IsRebalance(MinimumInputs(), 1)
            && MinimumInputs().configuration.sizingN == 1
    ensures SignalsAt(MinimumInputs(), 1) == [Signal(7, false)] && Desired([Signal(7, false)], 1) == {}
    ensures Selling(holdings, [Signal(7, false)], {}) == {7}
    ensures Ranked(MinimumInputs(), [Signal(7, false)]) && Members(MinimumInputs(), [7])
  {
    var ranked := [Signal(7, false)];
    assert ranked[..0] == [] && Desired([], 1) == {};
    assert Considered(ranked) == {7} by { assert ranked[0].instrument == 7; }
  }

  lemma OneHeld(holdings: map<Id, Holding>)
    requires holdings == map[7 := Holding(ONE, 0)]
    ensures Sorted(holdings.Keys) == [7]
  {
    OneOrder([7], holdings.Keys);
  }

  lemma ThirdSession(st: State)
    requires ValidInputs(MinimumInputs()) && Sound(MinimumInputs(), st, 2) && st.cash == 0
    requires st.holdings == map[7 := Holding(ONE, 0)] && st.queue == map[2 := [Pending(2, 7, 1, Sell, 0)]]
    ensures Step(MinimumInputs(), st, 2).cash == -ONE
  {
    var inp := MinimumInputs();
    MinimumInputsAreValid();
    Sold(st);
    DueIsOne(inp, st, Pending(2, 7, 1, Sell, 0), 2);
    Outcomes.ExecuteDueSound(inp, st, 2);
    hide Execute, ExecuteDue, Value, ValidInputs, Rebalanced, MinimumInputs;
    NoLookahead.PlanRecordsNothing(inp, Record(inp, ExecuteDue(inp, st, 2), 2), 2);
  }

  /** The whole run ends one short of nothing. */
  lemma RunOverdraws()
    ensures ValidInputs(MinimumInputs()) && |MinimumInputs().calendar| == 3
    ensures Run(MinimumInputs(), 3 * ONE, 3).cash == -ONE
  {
    MinimumInputsAreValid();
    FirstSession();
    hide Step, ValidInputs, MinimumInputs;
    var r1 := Run(MinimumInputs(), 3 * ONE, 1);
    SecondSession(r1);
    var r2 := Run(MinimumInputs(), 3 * ONE, 2);
    ThirdSession(r2);
  }
}

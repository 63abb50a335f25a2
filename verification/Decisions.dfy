/** What every trade, skip and queued decision of a run is, said from the inputs and from what the
    run itself recorded before: when the strategy plans, what it decides, when that falls due, at
    what price and in what quantity it fills, and for what reason it does not. */
module Decisions {
  import opened Prelude
  import opened Decimal
  import opened Costs
  import opened BacktestModel
  import opened Ordering
  import opened Lookups
  import opened Fills
  import opened Outcomes
  import opened Conservation
  import opened CashEquity
  import opened NoLookahead

  // ---- When a run plans -----------------------------------------------------------------------

  /** A calendar's weeks and months come in order. */
  ghost predicate InOrder(calendar: seq<Day>) {
    forall i, j :: 0 <= i < j < |calendar| ==>
      calendar[i].isoWeek <= calendar[j].isoWeek && calendar[i].month <= calendar[j].month
  }

  /** The first session, and then every one, or the first of its week, or of its month. */
  ghost predicate PlansOn(inp: Inputs, s: Session) {
    && s < |inp.calendar|
    && match inp.configuration.rebalance
       case Daily => true
       case Weekly => forall e :: 0 <= e < s ==> inp.calendar[e].isoWeek != inp.calendar[s].isoWeek
       case Monthly => forall e :: 0 <= e < s ==> inp.calendar[e].month != inp.calendar[s].month
       case OtherSchedule => s == 0
  }

  lemma PlansExactly(inp: Inputs, s: Session)
    requires InOrder(inp.calendar) && s < |inp.calendar|
    ensures IsRebalance(inp, s) <==> PlansOn(inp, s)
  {
    if s > 0 { assert inp.calendar[s - 1].isoWeek <= inp.calendar[s].isoWeek
      && inp.calendar[s - 1].month <= inp.calendar[s].month; }
  }

  ghost function PlanningSessions(inp: Inputs, k: nat): set<Session> {
    set s: Session | s < k && PlansOn(inp, s)
  }

  lemma OneMoreSession(inp: Inputs, k: nat)
    ensures PlanningSessions(inp, 0) == {}
    ensures PlanningSessions(inp, k + 1) == PlanningSessions(inp, k) + (if PlansOn(inp, k) then {k} else {})
    ensures k !in PlanningSessions(inp, k)
  {
    hide PlansOn;
  }

  /** A run counts exactly those sessions as rebalances. */
  lemma {:induction false} RebalancesCounted(inp: Inputs, capital: Dec, k: nat)
    requires ValidInputs(inp) && InOrder(inp.calendar) && k <= |inp.calendar|
    ensures Run(inp, capital, k).rebalances == |PlanningSessions(inp, k)|
  {
    hide Step, PlansOn, IsRebalance, PlanningSessions, ValidInputs, InOrder;
    if k == 0 {
      OneMoreSession(inp, 0);
    } else {
      RebalancesCounted(inp, capital, k - 1);
      StepCounts(inp, Run(inp, capital, k - 1), k - 1);
      PlansExactly(inp, k - 1);
      OneMoreSession(inp, k - 1);
    }
  }

  lemma StepCounts(inp: Inputs, st: State, s: Session)
    requires ValidInputs(inp) && Sound(inp, st, s) && s < |inp.calendar|
    ensures Step(inp, st, s).rebalances == st.rebalances + if IsRebalance(inp, s) then 1 else 0
  {
    hide ExecuteAll, Value, PlanSales, PlanEntries, Desired, Div;
    ExecuteAllSound(inp, st, Due(st.queue, s), s);
    ExecuteDueSound(inp, st, s);
    var recorded := Record(inp, ExecuteDue(inp, st, s), s);
    if IsRebalance(inp, s) { PlanCountsNothing(inp, recorded.(rebalances := recorded.rebalances + 1), s,
      Value(inp, recorded.holdings, s)); }
  }

  lemma PlanCountsNothing(inp: Inputs, st: State, s: Session, v: Valuation)
    requires ValidInputs(inp) && st.holdings.Keys <= inp.members.Keys
    ensures Plan(inp, st, s, v).rebalances == st.rebalances
  {
    hide Desired, Div, PlanSales, PlanEntries;
    var ranked := SignalsAt(inp, s);
    var desired := Desired(ranked, inp.configuration.sizingN);
    var selling := Selling(st.holdings, ranked, desired);
    SalesCountNothing(inp, st, Sorted(st.holdings.Keys), selling, s);
    EntriesCountNothing(inp, PlanSales(inp, st, Sorted(st.holdings.Keys), selling, s), ranked, selling, desired,
                        Target(inp, st.cash, v), s);
  }

  lemma {:induction false} SalesCountNothing(inp: Inputs, st: State, ids: seq<Id>, selling: set<Id>, s: Session)
    requires Members(inp, ids)
    ensures var next := PlanSales(inp, st, ids, selling, s);
            next.rebalances == st.rebalances && next.draws == st.draws
    decreases |ids|
  {
    if ids != [] { SalesCountNothing(inp, st, ids[..|ids| - 1], selling, s); }
  }

  lemma {:induction false} EntriesCountNothing(inp: Inputs, st: State, ranked: seq<Signal>, selling: set<Id>,
                                               desired: set<Id>, target: Dec, s: Session)
    requires Ranked(inp, ranked)
    ensures var next := PlanEntries(inp, st, ranked, selling, desired, target, s);
            next.rebalances == st.rebalances && next.draws == st.draws
    decreases |ranked|
  {
    if ranked != [] { EntriesCountNothing(inp, st, ranked[..|ranked| - 1], selling, desired, target, s); }
  }

  // ---- What is decided ------------------------------------------------------------------------

  /** Scored, and fewer than N scored before it in the session's ranking. */
  ghost predicate Wanted(inp: Inputs, s: Session, id: Id) {
    var ranked := SignalsAt(inp, s);
    exists i :: 0 <= i < |ranked| && ranked[i].instrument == id && ranked[i].scored
                && ScoredBefore(ranked, i) < inp.configuration.sizingN
  }

  /** A ranked instrument on a session that plans. */
  ghost predicate Signalled(inp: Inputs, s: Session, id: Id) {
    s < |inp.calendar| && IsRebalance(inp, s) && id in inp.members && exists i :: RankedAt(inp, s, id, i)
  }

  ghost predicate RankedAt(inp: Inputs, s: Session, id: Id, i: int) {
    0 <= i < |SignalsAt(inp, s)| && SignalsAt(inp, s)[i].instrument == id
  }

  /** What is held and not wanted is sold; what is wanted and not held is bought for an N-th of
      what could be invested, rounded half to even. */
  ghost predicate Decided(inp: Inputs, s: Session, id: Id, held: bool, investable: Dec, direction: Direction,
                          budget: Dec)
    requires inp.configuration.sizingN >= 1
  {
    && Signalled(inp, s, id)
    && match direction
       case Sell => held && !Wanted(inp, s, id)
       case Buy => !held && Wanted(inp, s, id) && IsHalfEven(investable, inp.configuration.sizingN, budget)
  }

  /** The first session an instrument trades after another, within the give-up window. */
  ghost predicate IsNext(inp: Inputs, id: Id, s: Session, c: Session) {
    && id in inp.members && c in inp.members[id].traded && s < c && c - s <= inp.configuration.giveUpSessions
    && forall t :: t in inp.members[id].traded && t > s ==> c <= t
  }

  /** Cash and everything that could be valued at a session. */
  ghost function Investable(cash: Dec, positions: seq<Position>, s: Session): Dec {
    cash + SumOfValues(PositionsAt(positions, s))
  }

  /** What a session's executions left held. */
  ghost predicate HeldAfter(inp: Inputs, capital: Dec, s: Session, id: Id)
    requires ValidInputs(inp)
  {
    s < |inp.calendar| && id in Run(inp, capital, s + 1).holdings
  }

  /** A decision of a run: the book is the one the session's executions left. */
  ghost predicate DecidedIn(inp: Inputs, capital: Dec, s: Session, id: Id, direction: Direction, budget: Dec)
    requires ValidInputs(inp)
  {
    && s < |inp.calendar|
    && var upon := Run(inp, capital, s + 1);
       Decided(inp, s, id, id in upon.holdings, Investable(upon.cash, upon.positions, s), direction, budget)
  }

  // ---- What is recorded -----------------------------------------------------------------------

  /** A trade carries out a decision at the session that falls to it, fills there, and states its
      costs component by component; cash and book are those of the trades before it. */
  ghost predicate TradeRight(inp: Inputs, capital: Dec, trades: seq<Trade>, i: nat)
    requires ValidInputs(inp) && i < |trades|
  {
    var t := trades[i];
    && IsNext(inp, t.instrument, t.signalSession, t.executionSession) && t.conversion.Usable()
    && (exists gross ::
          IsPricing(inp.configuration.costs, t.direction, t.quantity, t.price, t.conversion,
                    Execution(gross, t.slippage, t.spread, t.brokerage, t.cashEffect)))
    && exists budget ::
         && DecidedIn(inp, capital, t.signalSession, t.instrument, t.direction, budget)
         && IsFill(inp, CashAfter(capital, trades[..i]), Book(trades[..i]), t.instrument, t.direction, budget,
                   t.executionSession, t.quantity, t.price, t.conversion)
  }

  /** A decision falls due at a session already simulated, when so many trades had been done. */
  ghost predicate Falls(inp: Inputs, trades: seq<Trade>, k: nat, id: Id, s: Session, c: Session, j: nat) {
    && IsNext(inp, id, s, c) && c < k && j <= |trades|
    && (forall i :: 0 <= i < j ==> trades[i].executionSession <= c)
    && (forall i :: j <= i < |trades| ==> trades[i].executionSession >= c)
  }

  /** A decision that fell due was refused, for that reason. */
  ghost predicate RefusedWhenDue(inp: Inputs, capital: Dec, trades: seq<Trade>, k: nat, id: Id, s: Session,
                                 direction: Direction, reason: SkipReason)
    requires ValidInputs(inp)
  {
    exists c: Session, j: nat, budget: Dec ::
      && Falls(inp, trades, k, id, s, c, j) && DecidedIn(inp, capital, s, id, direction, budget)
      && IsRefusal(inp, CashAfter(capital, trades[..j]), Book(trades[..j]).Keys, id, direction, budget, c, reason)
  }

  /** Every reason names what was so. */
  ghost predicate SkipRight(inp: Inputs, capital: Dec, trades: seq<Trade>, k: nat, skip: Skip)
    requires ValidInputs(inp)
  {
    var id, s := skip.instrument, skip.signalSession;
    && Signalled(inp, s, id)
    && var held, wanted := HeldAfter(inp, capital, s, id), Wanted(inp, s, id);
       match skip.reason
       case AlreadyHeld => held && wanted
       case NotSelected => !wanted && (held ==> RefusedWhenDue(inp, capital, trades, k, id, s, Sell, NotSelected))
       case NoNextSession => held != wanted && s + 1 == |inp.calendar|
       case NotExecutable =>
         held != wanted && s + 1 < |inp.calendar|
         && ((forall c: Session :: !IsNext(inp, id, s, c))
             || (inp.idFailures != {} && exists c: Session :: IsNext(inp, id, s, c) && c < k))
       case NoPrice => false
       case NoRate =>
         held != wanted && RefusedWhenDue(inp, capital, trades, k, id, s, if held then Sell else Buy, NoRate)
       case NoCash => !held && wanted && RefusedWhenDue(inp, capital, trades, k, id, s, Buy, NoCash)
  }

  ghost predicate TradesRight(inp: Inputs, capital: Dec, trades: seq<Trade>)
    requires ValidInputs(inp)
  {
    forall i :: 0 <= i < |trades| ==> TradeRight(inp, capital, trades, i)
  }

  ghost predicate SkipsRight(inp: Inputs, capital: Dec, trades: seq<Trade>, k: nat, skips: seq<Skip>)
    requires ValidInputs(inp)
  {
    forall i :: 0 <= i < |skips| ==> SkipRight(inp, capital, trades, k, skips[i])
  }

  ghost predicate ItemRight(inp: Inputs, capital: Dec, p: Pending, c: Session)
    requires ValidInputs(inp)
  {
    && IsNext(inp, p.instrument, p.signalSession, c)
    && DecidedIn(inp, capital, p.signalSession, p.instrument, p.direction, p.budget)
  }

  ghost predicate QueueRight(inp: Inputs, capital: Dec, queue: map<Session, seq<Pending>>)
    requires ValidInputs(inp)
  {
    forall c, i :: IsQueued(queue, c, i) ==> ItemRight(inp, capital, queue[c][i], c)
  }

  // ---- Executing ------------------------------------------------------------------------------

  lemma TradesAppend(inp: Inputs, capital: Dec, trades: seq<Trade>, t: Trade)
    requires ValidInputs(inp) && TradesRight(inp, capital, trades) && TradeRight(inp, capital, trades + [t], |trades|)
    ensures TradesRight(inp, capital, trades + [t])
  {
    forall i | 0 <= i < |trades + [t]| ensures TradeRight(inp, capital, trades + [t], i) {
      if i < |trades| {
        assert TradeRight(inp, capital, trades, i);
        TradeStaysRight(inp, capital, trades, trades + [t], i);
      }
    }
  }

  lemma TradeStaysRight(inp: Inputs, capital: Dec, trades: seq<Trade>, more: seq<Trade>, i: nat)
    requires ValidInputs(inp) && trades <= more && i < |trades| && TradeRight(inp, capital, trades, i)
    ensures TradeRight(inp, capital, more, i)
  {
    hide IsNext, IsPricing, DecidedIn, IsFill, ValidInputs, CashAfter, Book;
    assert more[..i] == trades[..i] && more[i] == trades[i];
  }

  /** Trades of later sessions leave a skip's reason standing. */
  lemma SkipStaysRight(inp: Inputs, capital: Dec, trades: seq<Trade>, more: seq<Trade>, k: nat, k': nat, skip: Skip)
    requires ValidInputs(inp) && SkipRight(inp, capital, trades, k, skip) && trades <= more && k <= k'
    requires forall i :: |trades| <= i < |more| ==> more[i].executionSession + 1 >= k
    ensures SkipRight(inp, capital, more, k', skip)
  {
    hide Signalled, Wanted, Run, RefusedWhenDue, IsNext, ValidInputs;
    var id, s := skip.instrument, skip.signalSession;
    forall d, reason | RefusedWhenDue(inp, capital, trades, k, id, s, d, reason)
      ensures RefusedWhenDue(inp, capital, more, k', id, s, d, reason)
    {
      RefusalStays(inp, capital, trades, more, k, k', id, s, d, reason);
    }
  }

  lemma RefusalStays(inp: Inputs, capital: Dec, trades: seq<Trade>, more: seq<Trade>, k: nat, k': nat, id: Id,
                     s: Session, d: Direction, reason: SkipReason)
    requires ValidInputs(inp) && RefusedWhenDue(inp, capital, trades, k, id, s, d, reason) && trades <= more && k <= k'
    requires forall i :: |trades| <= i < |more| ==> more[i].executionSession + 1 >= k
    ensures RefusedWhenDue(inp, capital, more, k', id, s, d, reason)
  {
    hide DecidedIn, IsRefusal, ValidInputs, CashAfter, Book;
    var c: Session, j: nat, budget: Dec :| Falls(inp, trades, k, id, s, c, j)
      && DecidedIn(inp, capital, s, id, d, budget)
      && IsRefusal(inp, CashAfter(capital, trades[..j]), Book(trades[..j]).Keys, id, d, budget, c, reason);
    assert more[..j] == trades[..j];
    assert Falls(inp, more, k', id, s, c, j);
  }

  lemma SkipsStayRight(inp: Inputs, capital: Dec, trades: seq<Trade>, more: seq<Trade>, k: nat, k': nat,
                       skips: seq<Skip>)
    requires ValidInputs(inp) && SkipsRight(inp, capital, trades, k, skips) && trades <= more && k <= k'
    requires forall i :: |trades| <= i < |more| ==> more[i].executionSession + 1 >= k
    ensures SkipsRight(inp, capital, more, k', skips)
  {
    hide SkipRight;
    forall i | 0 <= i < |skips| ensures SkipRight(inp, capital, more, k', skips[i]) {
      SkipStaysRight(inp, capital, trades, more, k, k', skips[i]);
    }
  }

  /** What a run's trades leave, as far as executing needs it. */
  ghost predicate Kept(capital: Dec, st: State, c: Session) {
    Ledger(st) && CashKept(capital, st) && forall i :: 0 <= i < |st.trades| ==> st.trades[i].executionSession <= c
  }

  lemma BookIsHeld(capital: Dec, st: State, c: Session)
    requires Kept(capital, st, c)
    ensures Quantities(st.holdings) == Book(st.trades) && st.holdings.Keys == Book(st.trades).Keys
    ensures st.cash == CashAfter(capital, st.trades)
  {
    hide Net, Lost, NothingOverwritten, AllHonest, Book, CashAfter;
    SameQuantities(st.holdings, Book(st.trades));
  }

  lemma SameQuantities(holdings: map<Id, Holding>, book: map<Id, Dec>)
    requires forall id :: id in holdings <==> id in book
    requires forall id :: id in holdings ==> holdings[id].quantity == book[id]
    ensures Quantities(holdings) == book && holdings.Keys == book.Keys
  {
    forall id | id in holdings.Keys ensures id in book.Keys { }
    forall id | id in book.Keys ensures id in holdings.Keys { }
    assert holdings.Keys == book.Keys;
    assert Quantities(holdings).Keys == book.Keys;
    forall id | id in book ensures Quantities(holdings)[id] == book[id] { }
  }

  lemma FillIsRight(inp: Inputs, capital: Dec, st: State, item: Pending, c: Session)
    requires ValidInputs(inp) && item.instrument in inp.members && ItemRight(inp, capital, item, c)
             && Kept(capital, st, c)
    requires Decide(inp, st.cash, st.holdings, item, c).Fill?
    ensures var t := TradeOf(inp, item, c, Decide(inp, st.cash, st.holdings, item, c));
            TradeRight(inp, capital, st.trades + [t], |st.trades|)
  {
    hide Decide, IsNext, DecidedIn, IsFill, Price, IsPricing, Book, CashAfter, Kept, ValidInputs;
    var d := Decide(inp, st.cash, st.holdings, item, c);
    var t := TradeOf(inp, item, c, d);
    DecideMeans(inp, st.cash, st.holdings, item, c);
    BookIsHeld(capital, st, c);
    PriceMeans(inp.configuration.costs, item.direction, d.quantity, d.price, d.conversion);
    var e := Price(inp.configuration.costs, item.direction, d.quantity, d.price, d.conversion);
    assert Execution(e.gross, t.slippage, t.spread, t.brokerage, t.cashEffect) == e;
    assert (st.trades + [t])[..|st.trades|] == st.trades;
  }

  lemma RefusalIsRight(inp: Inputs, capital: Dec, st: State, item: Pending, c: Session)
    requires ValidInputs(inp) && item.instrument in inp.members && ItemRight(inp, capital, item, c)
             && Kept(capital, st, c)
    requires Decide(inp, st.cash, st.holdings, item, c).Refuse?
    ensures SkipRight(inp, capital, st.trades, c + 1,
                      Skip(item.instrument, item.signalSession, Decide(inp, st.cash, st.holdings, item, c).reason))
  {
    hide Decide, IsNext, IsRefusal, Book, CashAfter, Kept, Wanted, Signalled, Run;
    var reason := Decide(inp, st.cash, st.holdings, item, c).reason;
    DecideMeans(inp, st.cash, st.holdings, item, c);
    BookIsHeld(capital, st, c);
    FallsNow(inp, capital, st, item, c);
    assert st.trades[..|st.trades|] == st.trades;
    RefusalReasons(inp, st.cash, st.holdings.Keys, item, c, reason);
    assert RefusedWhenDue(inp, capital, st.trades, c + 1, item.instrument, item.signalSession, item.direction, reason);
  }

  lemma FallsNow(inp: Inputs, capital: Dec, st: State, item: Pending, c: Session)
    requires ValidInputs(inp) && ItemRight(inp, capital, item, c) && Kept(capital, st, c)
    ensures Falls(inp, st.trades, c + 1, item.instrument, item.signalSession, c, |st.trades|)
  {
    hide Ledger, CashKept, DecidedIn;
  }

  /** What falls due falls on a session that has a bar. */
  lemma RefusalReasons(inp: Inputs, cash: Dec, book: set<Id>, item: Pending, c: Session, reason: SkipReason)
    requires ValidInputs(inp) && item.instrument in inp.members && IsNext(inp, item.instrument, item.signalSession, c)
    requires IsRefusal(inp, cash, book, item.instrument, item.direction, item.budget, c, reason)
    ensures reason == NoRate || (reason == NotSelected && item.direction == Sell)
            || (reason == NoCash && item.direction == Buy)
  {
    hide IsMost, IsConversion;
  }

  ghost predicate RecordRight(inp: Inputs, capital: Dec, trades: seq<Trade>, skips: seq<Skip>, k: nat)
    requires ValidInputs(inp)
  {
    TradesRight(inp, capital, trades) && SkipsRight(inp, capital, trades, k, skips)
  }

  lemma RecordFill(inp: Inputs, capital: Dec, st: State, item: Pending, c: Session)
    requires ValidInputs(inp) && item.instrument in inp.members && ItemRight(inp, capital, item, c)
             && Kept(capital, st, c)
    requires RecordRight(inp, capital, st.trades, st.skips, c + 1)
    requires Decide(inp, st.cash, st.holdings, item, c).Fill?
    ensures RecordRight(inp, capital, st.trades + [TradeOf(inp, item, c, Decide(inp, st.cash, st.holdings, item, c))],
                        st.skips, c + 1)
  {
    hide Decide, Kept, TradesRight, SkipsRight, TradeRight, ItemRight, ValidInputs, TradeOf;
    var d := Decide(inp, st.cash, st.holdings, item, c);
    var t := TradeOf(inp, item, c, d);
    FillIsRight(inp, capital, st, item, c);
    TradesAppend(inp, capital, st.trades, t);
    FillsNow(inp, item, c, d);
    SkipsStayRight(inp, capital, st.trades, st.trades + [t], c + 1, c + 1, st.skips);
  }

  lemma RecordSkip(inp: Inputs, capital: Dec, trades: seq<Trade>, skips: seq<Skip>, k: nat, skip: Skip)
    requires ValidInputs(inp) && RecordRight(inp, capital, trades, skips, k) && SkipRight(inp, capital, trades, k, skip)
    ensures RecordRight(inp, capital, trades, skips + [skip], k)
  {
    hide TradesRight, SkipRight, SkipsRight, ValidInputs;
    SkipsAppend(inp, capital, trades, k, skips, skip);
  }

  lemma ExecuteIsRight(inp: Inputs, capital: Dec, st: State, item: Pending, c: Session)
    requires ValidInputs(inp) && item.instrument in inp.members && ItemRight(inp, capital, item, c)
             && Kept(capital, st, c)
    requires RecordRight(inp, capital, st.trades, st.skips, c + 1)
    ensures var done := Execute(inp, st, item, c);
            Kept(capital, done, c) && RecordRight(inp, capital, done.trades, done.skips, c + 1)
  {
    ExecuteKeeps(inp, capital, st, item, c);
    var d := Decide(inp, st.cash, st.holdings, item, c);
    if d.Refuse? || st.draws in inp.idFailures {
      SkippedIsRight(inp, capital, st, item, c);
    } else {
      FilledIsRight(inp, capital, st, item, c);
    }
  }

  lemma SkippedIsRight(inp: Inputs, capital: Dec, st: State, item: Pending, c: Session)
    requires ValidInputs(inp) && item.instrument in inp.members && ItemRight(inp, capital, item, c)
             && Kept(capital, st, c)
    requires RecordRight(inp, capital, st.trades, st.skips, c + 1)
    requires Decide(inp, st.cash, st.holdings, item, c).Refuse? || st.draws in inp.idFailures
    ensures var done := Execute(inp, st, item, c); RecordRight(inp, capital, done.trades, done.skips, c + 1)
  {
    hide *;
    ExecuteOutcome(inp, st, item, c);
    var skip := SkipOf(inp, capital, st, item, c);
    RecordSkip(inp, capital, st.trades, st.skips, c + 1, skip);
  }

  lemma SkipOf(inp: Inputs, capital: Dec, st: State, item: Pending, c: Session) returns (skip: Skip)
    requires ValidInputs(inp) && item.instrument in inp.members && ItemRight(inp, capital, item, c)
             && Kept(capital, st, c)
    requires Decide(inp, st.cash, st.holdings, item, c).Refuse? || st.draws in inp.idFailures
    ensures SkipRight(inp, capital, st.trades, c + 1, skip)
    ensures var d := Decide(inp, st.cash, st.holdings, item, c);
            skip == Skip(item.instrument, item.signalSession, if d.Refuse? then d.reason else NotExecutable)
  {
    hide *;
    var d := Decide(inp, st.cash, st.holdings, item, c);
    if d.Refuse? {
      RefusalIsRight(inp, capital, st, item, c);
      skip := Skip(item.instrument, item.signalSession, d.reason);
    } else {
      NoIdentifier(inp, capital, st.trades, item, c, st.draws);
      skip := Skip(item.instrument, item.signalSession, NotExecutable);
    }
  }

  lemma FilledIsRight(inp: Inputs, capital: Dec, st: State, item: Pending, c: Session)
    requires ValidInputs(inp) && item.instrument in inp.members && ItemRight(inp, capital, item, c)
             && Kept(capital, st, c)
    requires RecordRight(inp, capital, st.trades, st.skips, c + 1)
    requires Decide(inp, st.cash, st.holdings, item, c).Fill? && st.draws !in inp.idFailures
    ensures var done := Execute(inp, st, item, c); RecordRight(inp, capital, done.trades, done.skips, c + 1)
  {
    ExecuteOutcome(inp, st, item, c);
    hide *;
    RecordFill(inp, capital, st, item, c);
  }

  lemma FillsNow(inp: Inputs, item: Pending, c: Session, d: Decision)
    requires d.Fill? && d.conversion.Usable()
    ensures TradeOf(inp, item, c, d).executionSession == c
  {
    hide Price;
  }

  lemma ExecuteOutcome(inp: Inputs, st: State, item: Pending, c: Session)
    requires ValidInputs(inp) && item.instrument in inp.members
    ensures var done, d := Execute(inp, st, item, c), Decide(inp, st.cash, st.holdings, item, c);
            var refused := Skip(item.instrument, item.signalSession, if d.Refuse? then d.reason else NotExecutable);
            if d.Refuse? || st.draws in inp.idFailures then done.trades == st.trades
              && done.skips == st.skips + [refused]
            else done.trades == st.trades + [TradeOf(inp, item, c, d)] && done.skips == st.skips
  {
    hide Decide, ValidInputs, TradeOf;
  }

  lemma NoIdentifier(inp: Inputs, capital: Dec, trades: seq<Trade>, item: Pending, c: Session, draw: nat)
    requires ValidInputs(inp) && ItemRight(inp, capital, item, c) && draw in inp.idFailures
    ensures SkipRight(inp, capital, trades, c + 1, Skip(item.instrument, item.signalSession, NotExecutable))
  {
    hide Wanted, Run, RefusedWhenDue, Investable;
    NextLeavesASession(inp, item.instrument, item.signalSession, c);
  }

  lemma NextLeavesASession(inp: Inputs, id: Id, s: Session, c: Session)
    requires ValidInputs(inp) && IsNext(inp, id, s, c)
    ensures s + 1 < |inp.calendar|
  {
  }

  lemma SkipsAppend(inp: Inputs, capital: Dec, trades: seq<Trade>, k: nat, skips: seq<Skip>, skip: Skip)
    requires ValidInputs(inp) && SkipsRight(inp, capital, trades, k, skips) && SkipRight(inp, capital, trades, k, skip)
    ensures SkipsRight(inp, capital, trades, k, skips + [skip])
  {
    hide SkipRight;
  }

  lemma ExecuteKeeps(inp: Inputs, capital: Dec, st: State, item: Pending, c: Session)
    requires ValidInputs(inp) && item.instrument in inp.members && Kept(capital, st, c)
    ensures Kept(capital, Execute(inp, st, item, c), c)
  {
    hide Ledger, CashKept, Decide, ValidInputs, Price;
    ExecuteKeepsLedger(inp, st, item, c);
    ExecuteKeepsCash(inp, capital, st, item, c);
  }

  ghost predicate AllItemsRight(inp: Inputs, capital: Dec, items: seq<Pending>, c: Session)
    requires ValidInputs(inp)
  {
    forall i :: 0 <= i < |items| ==> ItemRight(inp, capital, items[i], c)
  }

  lemma {:induction false} ExecuteAllIsRight(inp: Inputs, capital: Dec, st: State, items: seq<Pending>, c: Session)
    requires ValidInputs(inp) && Known(inp, items) && AllItemsRight(inp, capital, items, c) && Kept(capital, st, c)
    requires RecordRight(inp, capital, st.trades, st.skips, c + 1)
    ensures var done := ExecuteAll(inp, st, items, c);
            Kept(capital, done, c) && RecordRight(inp, capital, done.trades, done.skips, c + 1)
    decreases |items|
  {
    hide Execute, Kept, RecordRight, ItemRight, ValidInputs;
    if items != [] {
      var last := |items| - 1;
      ExecuteAllIsRight(inp, capital, st, items[..last], c);
      ExecuteIsRight(inp, capital, ExecuteAll(inp, st, items[..last], c), items[last], c);
    }
  }

  // ---- Planning -------------------------------------------------------------------------------

  /** A planned state's queue and skips are right. */
  ghost predicate PlanKept(inp: Inputs, capital: Dec, st: State, k: nat)
    requires ValidInputs(inp)
  {
    QueueRight(inp, capital, st.queue) && SkipsRight(inp, capital, st.trades, k, st.skips)
  }

  lemma ScheduleIsRight(inp: Inputs, capital: Dec, st: State, id: Id, d: Direction, s: Session, budget: Dec, k: nat)
    requires ValidInputs(inp) && id in inp.members && DecidedIn(inp, capital, s, id, d, budget)
    requires PlanKept(inp, capital, st, k)
    ensures PlanKept(inp, capital, Schedule(inp, st, id, d, s, budget), k)
  {
    hide DecidedIn, SkipsRight, SkipRight, QueueRight, NextTradedSession, IsNext, NeverNext, ValidInputs;
    NextMeans(inp, id, s);
    match NextTradedSession(inp, inp.members[id], s) {
      case Never(reason) =>
        NeverIsRight(inp, capital, st.trades, k, id, d, s, budget, reason);
        SkipsAppend(inp, capital, st.trades, k, st.skips, Skip(id, s, reason));
      case At(c) =>
        QueueAppends(inp, capital, st.queue, c, Pending(st.sequence + 1, id, s, d, budget));
    }
  }

  ghost predicate NeverNext(inp: Inputs, id: Id, s: Session, reason: SkipReason) {
    if s + 1 >= |inp.calendar| then reason == NoNextSession
    else reason == NotExecutable && forall c: Session :: !IsNext(inp, id, s, c)
  }

  lemma NextMeans(inp: Inputs, id: Id, s: Session)
    requires ValidInputs(inp) && id in inp.members
    ensures match NextTradedSession(inp, inp.members[id], s)
            case At(c) => IsNext(inp, id, s, c)
            case Never(reason) =>
              NeverNext(inp, id, s, reason)
  {
    var m := inp.members[id];
    forall c: Session
      ensures IsNext(inp, id, s, c) && s + 1 < |inp.calendar| <==> NextTradedSession(inp, m, s) == At(c)
    {
      NextTradedMeans(inp, m, s, c);
    }
  }

  lemma NeverIsRight(inp: Inputs, capital: Dec, trades: seq<Trade>, k: nat, id: Id, d: Direction, s: Session,
                     budget: Dec, reason: SkipReason)
    requires ValidInputs(inp) && DecidedIn(inp, capital, s, id, d, budget)
    requires NeverNext(inp, id, s, reason)
    ensures SkipRight(inp, capital, trades, k, Skip(id, s, reason))
  {
    hide Wanted, Run, RefusedWhenDue, IsNext;
  }

  lemma QueueAppends(inp: Inputs, capital: Dec, queue: map<Session, seq<Pending>>, c: Session, p: Pending)
    requires ValidInputs(inp) && QueueRight(inp, capital, queue) && ItemRight(inp, capital, p, c)
    ensures QueueRight(inp, capital, queue[c := Due(queue, c) + [p]])
  {
    hide ItemRight;
    var next := queue[c := Due(queue, c) + [p]];
    forall x, i | IsQueued(next, x, i) ensures ItemRight(inp, capital, next[x][i], x) {
      if x != c || i < |Due(queue, c)| { assert IsQueued(queue, x, i); }
    }
  }

  lemma {:induction false} SalesAreRight(inp: Inputs, capital: Dec, st: State, ids: seq<Id>, selling: set<Id>,
                                         s: Session, k: nat)
    requires ValidInputs(inp) && Members(inp, ids) && PlanKept(inp, capital, st, k)
    requires forall id :: id in selling && id in inp.members ==> DecidedIn(inp, capital, s, id, Sell, 0)
    ensures PlanKept(inp, capital, PlanSales(inp, st, ids, selling, s), k)
    decreases |ids|
  {
    hide DecidedIn, PlanKept, Schedule, ValidInputs;
    if ids != [] {
      var last := |ids| - 1;
      SalesAreRight(inp, capital, st, ids[..last], selling, s, k);
      if ids[last] in selling {
        ScheduleIsRight(inp, capital, PlanSales(inp, st, ids[..last], selling, s), ids[last], Sell, s, 0, k);
      }
    }
  }

  /** What each entry of the ranking comes to, given who is sold and who is wanted. */
  ghost predicate EntryRight(inp: Inputs, capital: Dec, entry: Signal, selling: set<Id>, desired: set<Id>,
                             holdings: set<Id>, target: Dec, s: Session)
    requires ValidInputs(inp)
  {
    var id := entry.instrument;
    id !in selling ==>
      && s < |inp.calendar| && Signalled(inp, s, id)
      && (id in holdings <==> HeldAfter(inp, capital, s, id)) && (id in desired <==> Wanted(inp, s, id))
      && (id !in desired ==> id !in holdings)
      && (id in desired && id !in holdings ==> DecidedIn(inp, capital, s, id, Buy, target))
  }

  lemma {:induction false} EntriesAreRight(inp: Inputs, capital: Dec, st: State, ranked: seq<Signal>, selling: set<Id>,
                                           desired: set<Id>, target: Dec, s: Session, k: nat)
    requires ValidInputs(inp) && Ranked(inp, ranked) && PlanKept(inp, capital, st, k)
    requires forall i :: 0 <= i < |ranked| ==>
             EntryRight(inp, capital, ranked[i], selling, desired, st.holdings.Keys, target, s)
    ensures PlanKept(inp, capital, PlanEntries(inp, st, ranked, selling, desired, target, s), k)
    decreases |ranked|
  {
    hide EntryRight, PlanKept, PlanEntry, ValidInputs;
    if ranked != [] {
      var last := |ranked| - 1;
      EntriesAreRight(inp, capital, st, ranked[..last], selling, desired, target, s, k);
      EntriesRecordNothing(inp, st, ranked[..last], selling, desired, target, s);
      EntryIsRight(inp, capital, PlanEntries(inp, st, ranked[..last], selling, desired, target, s), ranked[last],
                   selling, desired, target, s, k);
    }
  }

  lemma EntryIsRight(inp: Inputs, capital: Dec, st: State, entry: Signal, selling: set<Id>, desired: set<Id>,
                     target: Dec, s: Session, k: nat)
    requires ValidInputs(inp) && entry.instrument in inp.members && PlanKept(inp, capital, st, k)
    requires EntryRight(inp, capital, entry, selling, desired, st.holdings.Keys, target, s)
    ensures PlanKept(inp, capital, PlanEntry(inp, st, entry, selling, desired, target, s), k)
  {
    hide DecidedIn, SkipsRight, QueueRight, Schedule, Wanted, Signalled, Run, RefusedWhenDue, IsNext, ValidInputs;
    var id := entry.instrument;
    if id !in selling {
      if id !in desired {
        SkipsAppend(inp, capital, st.trades, k, st.skips, Skip(id, s, NotSelected));
      } else if id in st.holdings {
        SkipsAppend(inp, capital, st.trades, k, st.skips, Skip(id, s, AlreadyHeld));
      } else {
        ScheduleIsRight(inp, capital, st, id, Buy, s, target, k);
      }
    }
  }

  lemma DesiredIsWanted(inp: Inputs, s: Session, id: Id)
    requires ValidInputs(inp) && UniqueRankings(inp)
    ensures id in Desired(SignalsAt(inp, s), inp.configuration.sizingN) <==> Wanted(inp, s, id)
  {
    hide Desired, ScoredBefore, ValidInputs;
    var ranked := SignalsAt(inp, s);
    var n := SizingCount(inp);
    DesiredMeans(ranked, n);
    DesiredRanked(ranked, n);
    if id in Desired(ranked, n) {
      var i :| 0 <= i < |ranked| && ranked[i].instrument == id;
    }
  }

  lemma SizingCount(inp: Inputs) returns (n: nat)
    requires ValidInputs(inp)
    ensures n == inp.configuration.sizingN >= 1
  {
    n := inp.configuration.sizingN;
  }

  /** The target is an N-th of cash and what could be valued. */
  lemma TargetMeans(inp: Inputs, cash: Dec, v: Valuation)
    requires ValidInputs(inp)
    ensures IsHalfEven(v.Total(cash), inp.configuration.sizingN, Target(inp, cash, v))
  {
    var n := SizingCount(inp);
    hide ValidInputs, IsHalfEven, Div;
    DivideWhole(v.Total(cash), n);
  }

  lemma DivideWhole(amount: Dec, n: nat)
    requires n >= 1
    ensures IsHalfEven(amount, n, Div(amount, FromInt(n)))
  {
    hide HalfEven;
    HalfEvenIsNearest(amount * SCALE, FromInt(n));
    var q := Div(amount, FromInt(n));
    assert amount * SCALE - q * FromInt(n) == (amount - q * n) * SCALE;
  }

  /** Planning a session: its executions have left the book, and its rows are recorded. */
  lemma PlanIsRight(inp: Inputs, capital: Dec, st: State, s: Session, k: nat)
    requires ValidInputs(inp) && UniqueRankings(inp) && Sound(inp, st, s + 1) && s < |inp.calendar|
    requires PlanKept(inp, capital, st, k) && IsRebalance(inp, s)
    requires var upon := Run(inp, capital, s + 1);
             upon.holdings == st.holdings && upon.cash == st.cash
             && SumOfValues(PositionsAt(upon.positions, s)) == Value(inp, st.holdings, s).positionValue
    ensures PlanKept(inp, capital, Plan(inp, st, s, Value(inp, st.holdings, s)), k)
  {
    hide Run, PlanKept, PlanSales, PlanEntries, Desired, Value, Target, IsHalfEven, Wanted, EntryRight;
    var ranked, n, v := SignalsAt(inp, s), inp.configuration.sizingN, Value(inp, st.holdings, s);
    var desired := Desired(ranked, n);
    var selling := Selling(st.holdings, ranked, desired);
    var target, ids := Target(inp, st.cash, v), Sorted(st.holdings.Keys);
    TargetMeans(inp, st.cash, v);
    forall id { DesiredIsWanted(inp, s, id); }
    forall id | id in selling ensures DecidedIn(inp, capital, s, id, Sell, 0) {
      ConsideredIsRanked(inp, s, id);
    }
    SalesAreRight(inp, capital, st, ids, selling, s, k);
    SalesRecordNothing(inp, st, ids, selling, s);
    forall i | 0 <= i < |ranked|
      ensures EntryRight(inp, capital, ranked[i], selling, desired, st.holdings.Keys, target, s)
    {
      PlannedEntry(inp, capital, st, ranked[i], i, selling, desired, target, s);
    }
    EntriesAreRight(inp, capital, PlanSales(inp, st, ids, selling, s), ranked, selling, desired, target, s, k);
  }

  lemma ConsideredIsRanked(inp: Inputs, s: Session, id: Id)
    ensures id in Considered(SignalsAt(inp, s)) <==> exists i :: RankedAt(inp, s, id, i)
  {
    var ranked := SignalsAt(inp, s);
    if i :| RankedAt(inp, s, id, i) { assert ranked[i].instrument in Considered(ranked); }
    if id in Considered(ranked) {
      var i :| 0 <= i < |ranked| && ranked[i].instrument == id;
      assert RankedAt(inp, s, id, i);
    }
  }

  lemma PlannedEntry(inp: Inputs, capital: Dec, st: State, entry: Signal, i: nat, selling: set<Id>, desired: set<Id>,
                     target: Dec, s: Session)
    requires ValidInputs(inp) && s < |inp.calendar| && IsRebalance(inp, s) && st.holdings.Keys <= inp.members.Keys
    requires i < |SignalsAt(inp, s)| && entry == SignalsAt(inp, s)[i]
    requires selling == Selling(st.holdings, SignalsAt(inp, s), desired)
    requires forall id :: id in desired <==> Wanted(inp, s, id)
    requires var upon := Run(inp, capital, s + 1);
             upon.holdings == st.holdings
             && IsHalfEven(Investable(upon.cash, upon.positions, s), inp.configuration.sizingN, target)
    ensures EntryRight(inp, capital, entry, selling, desired, st.holdings.Keys, target, s)
  {
    hide Run, Wanted, Investable, IsHalfEven;
    assert RankedAt(inp, s, entry.instrument, i);
    ConsideredIsRanked(inp, s, entry.instrument);
  }

  // ---- Over a run -----------------------------------------------------------------------------

  ghost predicate AllRight(inp: Inputs, capital: Dec, st: State, k: nat)
    requires ValidInputs(inp)
  {
    && TradesRight(inp, capital, st.trades) && SkipsRight(inp, capital, st.trades, k, st.skips)
    && QueueRight(inp, capital, st.queue)
  }

  lemma {:induction false} RunIsRight(inp: Inputs, capital: Dec, k: nat)
    requires ValidInputs(inp) && UniqueRankings(inp) && k <= |inp.calendar|
    ensures AllRight(inp, capital, Run(inp, capital, k), k)
  {
    hide Step, AllRight, ValidInputs;
    if k == 0 {
      NothingIsRight(inp, capital);
    } else {
      RunIsRight(inp, capital, k - 1);
      StepIsRight(inp, capital, k - 1);
    }
  }

  lemma NothingIsRight(inp: Inputs, capital: Dec)
    requires ValidInputs(inp)
    ensures AllRight(inp, capital, Initial(capital), 0)
  {
  }

  /** The parts of a session. */
  ghost function Recorded(inp: Inputs, st: State, s: Session): (r: State)
    requires ValidInputs(inp) && Sound(inp, st, s) && s < |inp.calendar|
    ensures Sound(inp, r, s + 1)
  {
    ExecuteDueSound(inp, st, s);
    Record(inp, ExecuteDue(inp, st, s), s)
  }

  lemma StepParts(inp: Inputs, st: State, s: Session)
    requires ValidInputs(inp) && Sound(inp, st, s) && s < |inp.calendar|
    ensures var recorded := Recorded(inp, st, s);
            && Sound(inp, recorded, s + 1) && Step(inp, st, s) == Rebalanced(inp, recorded, s)
            && recorded.queue == st.queue - {s}
            && recorded.trades == ExecuteAll(inp, st, Due(st.queue, s), s).trades
            && recorded.skips == ExecuteAll(inp, st, Due(st.queue, s), s).skips
  {
    hide ExecuteAll, Value, Rebalanced;
    ExecuteAllSound(inp, st, Due(st.queue, s), s);
    ExecuteDueSound(inp, st, s);
  }

  lemma DueIsRight(inp: Inputs, capital: Dec, st: State, s: Session)
    requires ValidInputs(inp) && Sound(inp, st, s) && s < |inp.calendar| && AllRight(inp, capital, st, s)
    requires Kept(capital, st, s) && RecordedWithin(st, s)
    ensures var done := ExecuteAll(inp, st, Due(st.queue, s), s);
            TradesRight(inp, capital, done.trades) && SkipsRight(inp, capital, done.trades, s + 1, done.skips)
  {
    hide Kept, TradesRight, SkipsRight, ItemRight, ExecuteAll;
    var items := Due(st.queue, s);
    forall i | 0 <= i < |items| ensures ItemRight(inp, capital, items[i], s) { assert IsQueued(st.queue, s, i); }
    SkipsStayRight(inp, capital, st.trades, st.trades, s, s + 1, st.skips);
    ExecuteAllIsRight(inp, capital, st, items, s);
  }

  lemma RunKept(inp: Inputs, capital: Dec, s: nat)
    requires ValidInputs(inp) && s <= |inp.calendar|
    ensures Kept(capital, Run(inp, capital, s), s) && RecordedWithin(Run(inp, capital, s), s)
  {
    RunWithin(inp, capital, s);
    RunKeepsLedger(inp, capital, s);
    BooksBalance(inp, capital, s);
    hide Run, Ledger, CashKept;
  }

  lemma StepIsRight(inp: Inputs, capital: Dec, s: Session)
    requires ValidInputs(inp) && UniqueRankings(inp) && s < |inp.calendar|
    requires AllRight(inp, capital, Run(inp, capital, s), s)
    ensures AllRight(inp, capital, Run(inp, capital, s + 1), s + 1)
  {
    var st := Run(inp, capital, s);
    var recorded := Recorded(inp, st, s);
    assert Run(inp, capital, s + 1) == Step(inp, st, s);
    StepParts(inp, st, s);
    RunKept(inp, capital, s);
    DueIsRight(inp, capital, st, s);
    QueueWithout(inp, capital, st.queue, s);
    hide Run, Recorded, TradesRight, SkipsRight, QueueRight, Step, Rebalanced;
    PlanRecordsNothing(inp, recorded, s);
    if IsRebalance(inp, s) {
      RecordedValue(inp, capital, s);
      PlanCountedIsRight(inp, capital, recorded, s);
    } else {
      NotPlanned(inp, recorded, s);
    }
  }

  lemma NotPlanned(inp: Inputs, st: State, s: Session)
    requires ValidInputs(inp) && Sound(inp, st, s + 1) && s < |inp.calendar| && !IsRebalance(inp, s)
    ensures Rebalanced(inp, st, s) == st
  {
    hide Plan, Value, IsRebalance;
  }

  lemma QueueWithout(inp: Inputs, capital: Dec, queue: map<Session, seq<Pending>>, s: Session)
    requires ValidInputs(inp) && QueueRight(inp, capital, queue)
    ensures QueueRight(inp, capital, queue - {s})
  {
    hide ItemRight;
    forall c, i | IsQueued(queue - {s}, c, i) ensures ItemRight(inp, capital, (queue - {s})[c][i], c) {
      assert IsQueued(queue, c, i);
    }
  }

  /** What a session recorded is what its valuation summed. */
  lemma RecordedValue(inp: Inputs, capital: Dec, s: Session)
    requires ValidInputs(inp) && s < |inp.calendar|
    ensures var st := Run(inp, capital, s);
            var recorded := Recorded(inp, st, s);
            SumOfValues(PositionsAt(recorded.positions, s)) == Value(inp, recorded.holdings, s).positionValue
  {
    RunWithin(inp, capital, s);
    hide Run;
    RecordSums(inp, Run(inp, capital, s), s);
  }

  lemma RecordSums(inp: Inputs, st: State, s: Session)
    requires ValidInputs(inp) && Sound(inp, st, s) && s < |inp.calendar| && RecordedWithin(st, s)
    ensures var recorded := Recorded(inp, st, s);
            SumOfValues(PositionsAt(recorded.positions, s)) == Value(inp, recorded.holdings, s).positionValue
  {
    hide ExecuteAll, ValueAll, SumOfValues, PositionsAt;
    ExecuteAllSound(inp, st, Due(st.queue, s), s);
    ExecuteDueSound(inp, st, s);
    var executed := ExecuteDue(inp, st, s);
    ValueSums(inp, executed.holdings, s);
    RowsAtAppend(st.positions, Value(inp, executed.holdings, s).positions, s);
  }

  lemma ValueSums(inp: Inputs, holdings: map<Id, Holding>, s: Session)
    requires ValidInputs(inp) && holdings.Keys <= inp.members.Keys
    ensures var v := Value(inp, holdings, s);
            v.positionValue == SumOfValues(v.positions) && forall i :: 0 <= i < |v.positions| ==>
              v.positions[i].session == s
  {
    hide ValueAll, SumOfValues;
    ValueAllStamps(inp, holdings, Sorted(holdings.Keys), s);
    ValueAllAdds(inp, holdings, Sorted(holdings.Keys), s);
  }

  lemma PlanCountedIsRight(inp: Inputs, capital: Dec, recorded: State, s: Session)
    requires ValidInputs(inp) && UniqueRankings(inp) && Sound(inp, recorded, s + 1) && s < |inp.calendar|
             && IsRebalance(inp, s)
    requires QueueRight(inp, capital, recorded.queue)
             && SkipsRight(inp, capital, recorded.trades, s + 1, recorded.skips)
    requires var upon := Run(inp, capital, s + 1);
             upon.holdings == recorded.holdings && upon.cash == recorded.cash && upon.positions == recorded.positions
    requires SumOfValues(PositionsAt(recorded.positions, s)) == Value(inp, recorded.holdings, s).positionValue
    ensures var next := Rebalanced(inp, recorded, s);
            QueueRight(inp, capital, next.queue) && SkipsRight(inp, capital, next.trades, s + 1, next.skips)
  {
    hide Run, QueueRight, SkipsRight, Plan, Value, SumOfValues, PositionsAt, IsRebalance;
    PlanIsRight(inp, capital, recorded.(rebalances := recorded.rebalances + 1), s, s + 1);
  }

  // ---- On the record --------------------------------------------------------------------------

  lemma {:induction false} LaterRowsElsewhere(earlier: seq<Position>, all: seq<Position>, s: Session)
    requires earlier <= all && forall i :: |earlier| <= i < |all| ==> all[i].session != s
    ensures PositionsAt(all, s) == PositionsAt(earlier, s)
    decreases |all|
  {
    if |earlier| < |all| {
      LaterRowsElsewhere(earlier, all[..|all| - 1], s);
    } else {
      assert earlier == all;
    }
  }

  /** What a run recorded by a session, and at it, any longer run shows. */
  lemma RecordShows(inp: Inputs, capital: Dec, k: nat, s: Session)
    requires ValidInputs(inp) && s < k <= |inp.calendar|
    ensures ExecutedBy(Run(inp, capital, k).trades, s) == Run(inp, capital, s + 1).trades
    ensures PositionsAt(Run(inp, capital, k).positions, s) == PositionsAt(Run(inp, capital, s + 1).positions, s)
  {
    hide Run, ExecutedBy, PositionsAt, ValidInputs;
    RunWithin(inp, capital, s + 1);
    RunRemembers(inp, capital, s + 1, k);
    FilterTrades(Run(inp, capital, s + 1).trades, Run(inp, capital, k).trades, s);
    LaterRowsElsewhere(Run(inp, capital, s + 1).positions, Run(inp, capital, k).positions, s);
  }

  /** So each decision can be checked against the run's own trades and rows: held is the book of
      the trades executed by the session, and what could be invested is their cash and the
      session's recorded values. */
  lemma DecidedOnRecord(inp: Inputs, capital: Dec, k: nat, s: Session, id: Id, direction: Direction, budget: Dec)
    requires ValidInputs(inp) && s < k <= |inp.calendar|
    ensures var trades, positions := Run(inp, capital, k).trades, Run(inp, capital, k).positions;
            && (HeldAfter(inp, capital, s, id) <==> id in Book(ExecutedBy(trades, s)))
            && (DecidedIn(inp, capital, s, id, direction, budget) <==>
                Decided(inp, s, id, id in Book(ExecutedBy(trades, s)),
                        Investable(CashAfter(capital, ExecutedBy(trades, s)), positions, s), direction, budget))
  {
    hide Run, ExecutedBy, PositionsAt, Book, CashAfter, Kept, Decided, SumOfValues;
    RecordShows(inp, capital, k, s);
    RunKept(inp, capital, s + 1);
    BookIsHeld(capital, Run(inp, capital, s + 1), s + 1);
  }

  /** The row of a held instrument: its quantity, and what it is worth. */
  ghost predicate IsRow(inp: Inputs, row: Position, s: Session, id: Id, quantity: Dec)
    requires ValidInputs(inp)
  {
    id in inp.members && row == Position(s, id, quantity, MarkOf(inp, inp.members[id], quantity, s))
  }

  lemma {:induction false} RowsOfHoldings(inp: Inputs, holdings: map<Id, Holding>, ids: seq<Id>, s: Session)
    requires ValidInputs(inp) && Held(inp, holdings, ids)
    ensures var rows := ValueAll(inp, holdings, ids, s).positions;
            |rows| == |ids| && forall i :: 0 <= i < |ids| ==> IsRow(inp, rows[i], s, ids[i], holdings[ids[i]].quantity)
    decreases |ids|
  {
    hide MarkOf;
    if ids != [] { RowsOfHoldings(inp, holdings, ids[..|ids| - 1], s); }
  }

  /** The rows of a book: each held instrument once, in identifier order. */
  ghost predicate AreRows(inp: Inputs, rows: seq<Position>, s: Session, book: map<Id, Dec>)
    requires ValidInputs(inp)
  {
    var ids := Sorted(book.Keys);
    |rows| == |ids| && forall i :: 0 <= i < |ids| ==> ids[i] in book && IsRow(inp, rows[i], s, ids[i], book[ids[i]])
  }

  /** The rows of every session are those of the book its trades left. */
  lemma RowsAreTheBook(inp: Inputs, capital: Dec, k: nat, s: Session)
    requires ValidInputs(inp) && s < k <= |inp.calendar|
    ensures AreRows(inp, PositionsAt(Run(inp, capital, k).positions, s), s,
                    Book(ExecutedBy(Run(inp, capital, k).trades, s)))
  {
    hide Run, ExecutedBy, PositionsAt, Book, CashAfter, Kept, AreRows, ValidInputs;
    RecordShows(inp, capital, k, s);
    RunKept(inp, capital, s + 1);
    BookIsHeld(capital, Run(inp, capital, s + 1), s + 1);
    StepRows(inp, capital, s);
  }

  lemma StepRows(inp: Inputs, capital: Dec, s: Session)
    requires ValidInputs(inp) && s < |inp.calendar|
    ensures var st := Run(inp, capital, s + 1);
            AreRows(inp, PositionsAt(st.positions, s), s, Quantities(st.holdings))
  {
    hide ExecuteAll, ValueAll, PositionsAt, Step, Rebalanced, AreRows, Recorded, RecordedWithin, ValidInputs;
    var before := Run(inp, capital, s);
    assert Run(inp, capital, s + 1) == Step(inp, before, s);
    StepParts(inp, before, s);
    RunWithin(inp, capital, s);
    hide Run;
    PlanRecordsNothing(inp, Recorded(inp, before, s), s);
    RecordedRows(inp, before, s);
  }

  lemma RecordedRows(inp: Inputs, st: State, s: Session)
    requires ValidInputs(inp) && Sound(inp, st, s) && s < |inp.calendar| && RecordedWithin(st, s)
    ensures var recorded := Recorded(inp, st, s);
            AreRows(inp, PositionsAt(recorded.positions, s), s, Quantities(recorded.holdings))
  {
    hide ExecuteAll, ValueAll, PositionsAt, AreRows;
    ExecuteAllSound(inp, st, Due(st.queue, s), s);
    ExecuteDueSound(inp, st, s);
    var executed := ExecuteDue(inp, st, s);
    ValueSums(inp, executed.holdings, s);
    RowsAtAppend(st.positions, Value(inp, executed.holdings, s).positions, s);
    ValueRows(inp, executed.holdings, s);
  }

  lemma ValueRows(inp: Inputs, holdings: map<Id, Holding>, s: Session)
    requires ValidInputs(inp) && holdings.Keys <= inp.members.Keys
    ensures AreRows(inp, Value(inp, holdings, s).positions, s, Quantities(holdings))
  {
    hide ValueAll, MarkOf, Sorted;
    RowsOfHoldings(inp, holdings, Sorted(holdings.Keys), s);
    assert Quantities(holdings).Keys == holdings.Keys;
  }

  /** Every trade of every run fills at its session's open and conversion; a sale is of all that
      the trades before it left, a purchase of the most whole shares; and each cost is stated as
      the cost model rounds it. */
  lemma EveryTrade(inp: Inputs, capital: Dec, k: nat, i: nat)
    requires ValidInputs(inp) && UniqueRankings(inp) && k <= |inp.calendar| && i < |Run(inp, capital, k).trades|
    ensures var t, m := Run(inp, capital, k).trades[i], Run(inp, capital, k).trades[i].instrument;
            && m in inp.members && t.signalSession < t.executionSession < |inp.calendar|
            && t.executionSession in inp.members[m].opens && t.price == inp.members[m].opens[t.executionSession]
            && t.conversion.Usable() && IsConversion(inp, inp.members[m].currency, t.executionSession, t.conversion)
            && (t.direction == Sell ==>
                  var book := Book(Run(inp, capital, k).trades[..i]); m in book && t.quantity == book[m])
            && (t.direction == Buy ==> t.quantity > 0 && t.quantity % SCALE == 0)
            && exists gross ::
                 IsPricing(inp.configuration.costs, t.direction, t.quantity, t.price, t.conversion,
                           Execution(gross, t.slippage, t.spread, t.brokerage, t.cashEffect))
  {
    hide Run, IsPricing, DecidedIn, Book, CashAfter, IsMost, IsConversion;
    RunIsRight(inp, capital, k);
    assert TradeRight(inp, capital, Run(inp, capital, k).trades, i);
  }

  // ---- Identifiers ----------------------------------------------------------------------------

  ghost function FailedDraws(inp: Inputs, draws: nat): set<nat> {
    set n: nat | n < draws && n in inp.idFailures
  }

  ghost predicate DrawsTell(inp: Inputs, st: State) {
    st.draws == |st.trades| + |FailedDraws(inp, st.draws)|
  }

  lemma FailedDrawsMore(inp: Inputs, draws: nat)
    ensures FailedDraws(inp, draws + 1) == FailedDraws(inp, draws) + (if draws in inp.idFailures then {draws} else {})
    ensures draws !in FailedDraws(inp, draws)
  {
  }

  lemma ExecuteDraws(inp: Inputs, st: State, item: Pending, c: Session)
    requires ValidInputs(inp) && item.instrument in inp.members && DrawsTell(inp, st)
    ensures DrawsTell(inp, Execute(inp, st, item, c))
  {
    hide Decide, ValidInputs, TradeOf, FailedDraws;
    FailedDrawsMore(inp, st.draws);
  }

  lemma {:induction false} ExecuteAllDraws(inp: Inputs, st: State, items: seq<Pending>, c: Session)
    requires ValidInputs(inp) && Known(inp, items) && DrawsTell(inp, st)
    ensures DrawsTell(inp, ExecuteAll(inp, st, items, c))
    decreases |items|
  {
    hide Execute, DrawsTell, ValidInputs;
    if items != [] {
      ExecuteAllDraws(inp, st, items[..|items| - 1], c);
      ExecuteDraws(inp, ExecuteAll(inp, st, items[..|items| - 1], c), items[|items| - 1], c);
    }
  }

  /** Every filled decision draws an identifier: the draws of a run number its trades and the draws that failed. */
  lemma {:induction false} DrawsCounted(inp: Inputs, capital: Dec, k: nat)
    requires ValidInputs(inp) && k <= |inp.calendar|
    ensures DrawsTell(inp, Run(inp, capital, k))
  {
    hide Step, DrawsTell, ValidInputs;
    if k == 0 {
      NoDraws(inp, capital);
    } else {
      DrawsCounted(inp, capital, k - 1);
      StepDraws(inp, Run(inp, capital, k - 1), k - 1);
    }
  }

  lemma NoDraws(inp: Inputs, capital: Dec)
    ensures DrawsTell(inp, Initial(capital))
  {
    assert FailedDraws(inp, 0) == {};
  }

  lemma StepDraws(inp: Inputs, st: State, s: Session)
    requires ValidInputs(inp) && Sound(inp, st, s) && s < |inp.calendar| && DrawsTell(inp, st)
    ensures DrawsTell(inp, Step(inp, st, s))
  {
    hide ExecuteAll, Value, Rebalanced, FailedDraws;
    ExecuteAllSound(inp, st, Due(st.queue, s), s);
    ExecuteDueSound(inp, st, s);
    ExecuteAllDraws(inp, st, Due(st.queue, s), s);
    var recorded := Record(inp, ExecuteDue(inp, st, s), s);
    PlanRecordsNothing(inp, recorded, s);
    PlanDrawsNothing(inp, recorded, s);
  }

  lemma PlanDrawsNothing(inp: Inputs, st: State, s: Session)
    requires ValidInputs(inp) && Sound(inp, st, s + 1) && s < |inp.calendar|
    ensures Rebalanced(inp, st, s).draws == st.draws
  {
    hide PlanSales, PlanEntries, Value, Div, Desired;
    if IsRebalance(inp, s) {
      var start := st.(rebalances := st.rebalances + 1);
      var ranked := SignalsAt(inp, s);
      var desired := Desired(ranked, inp.configuration.sizingN);
      var selling := Selling(st.holdings, ranked, desired);
      SalesCountNothing(inp, start, Sorted(st.holdings.Keys), selling, s);
      EntriesCountNothing(inp, PlanSales(inp, start, Sorted(st.holdings.Keys), selling, s), ranked, selling, desired,
                          Target(inp, st.cash, Value(inp, st.holdings, s)), s);
    }
  }
}

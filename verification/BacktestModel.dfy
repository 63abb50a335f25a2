/** The simulation's data, its execution rules, and one session of it as a
    function of values. The engine's methods are held to these functions. */
module BacktestModel {
  import opened Prelude
  import opened Decimal
  import opened Costs
  import opened Ordering

  /** An identifier, ordered as its text is. */
  type Id = int

  /** A session is its position in the calendar. */
  type Session = nat

  datatype Rebalance = Daily | Weekly | Monthly | OtherSchedule

  /** What the schedule reads off a date: its ISO week and its year and month. */
  datatype Day = Day(isoWeek: int, month: int)

  datatype Configuration = Configuration(
    accountingCurrency: string, sizingN: int, rebalance: Rebalance, giveUpSessions: int, costs: Model)

  /** traded holds the sessions the instrument has a bar for, ascending. */
  datatype Instrument = Instrument(
    currency: string, traded: seq<Session>, opens: map<Session, Dec>, closes: map<Session, Dec>)

  datatype Signal = Signal(instrument: Id, scored: bool)

  /** idFailures are the draws on which generating a trade identifier fails. */
  datatype Inputs = Inputs(
    configuration: Configuration, calendar: seq<Day>, members: map<Id, Instrument>,
    rates: map<string, map<Session, Dec>>, signals: map<Session, seq<Signal>>, idFailures: set<nat>)

  datatype SkipReason = NotSelected | AlreadyHeld | NoCash | NotExecutable | NoPrice | NoRate | NoNextSession

  datatype Pending = Pending(sequence: nat, instrument: Id, signalSession: Session, direction: Direction, budget: Dec)

  datatype Holding = Holding(quantity: Dec, signalSession: Session)

  datatype Trade = Trade(
    instrument: Id, signalSession: Session, executionSession: Session, direction: Direction,
    quantity: Dec, price: Dec, conversion: Conversion, brokerage: Dec, slippage: Dec, spread: Dec, cashEffect: Dec)

  datatype Skip = Skip(instrument: Id, signalSession: Session, reason: SkipReason)

  datatype PositionAbsence = PositionNoPrice | PositionNoRate

  datatype Mark =
    | Valued(price: Dec, priceSession: Session, conversion: Conversion, value: Dec)
    | Unvalued(reason: PositionAbsence)

  datatype Position = Position(session: Session, instrument: Id, quantity: Dec, mark: Mark)

  datatype Statement = Statement(positionValue: Dec, total: Dec)

  datatype EquityPoint = EquityPoint(session: Session, cash: Dec, stated: Option<Statement>)

  datatype Valuation = Valuation(positions: seq<Position>, positionValue: Dec, complete: bool)
  {
    function Total(cash: Dec): Dec {
      cash + positionValue
    }
  }

  datatype State = State(
    cash: Dec, holdings: map<Id, Holding>, queue: map<Session, seq<Pending>>, sequence: nat,
    trades: seq<Trade>, skips: seq<Skip>, positions: seq<Position>, equity: seq<EquityPoint>,
    rebalances: nat, draws: nat)

  function Initial(capital: Dec): State {
    State(capital, map[], map[], 0, [], [], [], [], 0, 0)
  }

  // ---- What loading establishes about the inputs --------------------------------------------

  ghost predicate Ascending(s: seq<Session>) {
    forall i, j :: 0 <= i < j < |s| ==> s[i] < s[j]
  }

  ghost predicate ValidInstrument(m: Instrument, sessions: nat) {
    && Ascending(m.traded)
    && (forall t :: t in m.traded ==> t < sessions)
    && (forall t :: t in m.traded <==> t in m.opens)
    && (forall t :: t in m.traded <==> t in m.closes)
  }

  /** Bars are loaded into one calendar; signals name members only; a stored rate is
      positive; and a run is refused unless its sizing count is at least one. */
  ghost predicate ValidInputs(inp: Inputs) {
    && inp.configuration.sizingN >= 1
    && (forall id :: id in inp.members ==> ValidInstrument(inp.members[id], |inp.calendar|))
    && (forall s, i :: s in inp.signals && 0 <= i < |inp.signals[s]| ==> inp.signals[s][i].instrument in inp.members)
    && (forall c, s :: c in inp.rates && s in inp.rates[c] ==> inp.rates[c][s] > 0)
  }

  function SignalsAt(inp: Inputs, session: Session): seq<Signal> {
    if session in inp.signals then inp.signals[session] else []
  }

  // ---- Execution rules ------------------------------------------------------------------------

  /** The library search: the first index whose session is after the given one. */
  function FirstAfter(traded: seq<Session>, after: Session): (i: nat)
    ensures i <= |traded|
    ensures forall j :: 0 <= j < i ==> traded[j] <= after
    ensures i < |traded| ==> traded[i] > after
  {
    if traded == [] then 0
    else if traded[0] > after then 0
    else 1 + FirstAfter(traded[1..], after)
  }

  datatype Next = At(session: Session) | Never(reason: SkipReason)

  function NextTradedSession(inp: Inputs, m: Instrument, after: Session): Next {
    if after + 1 >= |inp.calendar| then Never(NoNextSession)
    else
      var found := FirstAfter(m.traded, after);
      if found == |m.traded| then Never(NotExecutable)
      else if m.traded[found] - after > inp.configuration.giveUpSessions then Never(NotExecutable)
      else At(m.traded[found])
  }

  function PriceAsOf(inp: Inputs, m: Instrument, session: Session): Option<(Dec, Session)>
    requires forall t :: t in m.traded ==> t in m.closes
  {
    if session in m.closes then Some((m.closes[session], session))
    else
      var found := FirstAfter(m.traded, session);
      if found == 0 then None
      else
        var candidate := m.traded[found - 1];
        if session - candidate > inp.configuration.giveUpSessions then None
        else Some((m.closes[candidate], candidate))
  }

  function Rate(inp: Inputs, currency: string, session: Session): (r: Option<Conversion>)
    ensures ValidInputs(inp) && r.Some? ==> r.value.Usable()
  {
    if currency == inp.configuration.accountingCurrency then Some(Same)
    else if currency in inp.rates && session in inp.rates[currency] then Some(Across(inp.rates[currency][session]))
    else None
  }

  // ---- Executing one queued decision ----------------------------------------------------------

  /** The correction loop: one share at a time until the cash covers the order. */
  function TrimToCash(model: Model, cash: Dec, quantity: Dec, price: Dec, c: Conversion): (q: Dec)
    requires c.Usable()
    decreases quantity
  {
    if quantity > 0 && cash + Price(model, Buy, quantity, price, c).cashEffect < 0
    then TrimToCash(model, cash, quantity - ONE, price, c)
    else quantity
  }

  /** The loop ends covered or with nothing, on whole shares it ends on whole shares, and
      one share more than it ends with would not have been covered. */
  lemma {:induction false} TrimCovers(model: Model, cash: Dec, quantity: Dec, price: Dec, c: Conversion)
    requires c.Usable()
    ensures var q := TrimToCash(model, cash, quantity, price, c);
            && (q > 0 ==> cash + Price(model, Buy, q, price, c).cashEffect >= 0)
            && (quantity % SCALE == 0 ==> q % SCALE == 0)
            && (quantity >= 0 && quantity % SCALE == 0 ==> 0 <= q <= quantity)
            && (q != quantity ==> q + ONE <= quantity && cash + Price(model, Buy, q + ONE, price, c).cashEffect < 0)
    decreases quantity
  {
    hide Price;
    if quantity > 0 && cash + Price(model, Buy, quantity, price, c).cashEffect < 0 {
      TrimCovers(model, cash, quantity - ONE, price, c);
    }
  }

  datatype Decision = Refuse(reason: SkipReason) | Fill(quantity: Dec, price: Dec, conversion: Conversion)

  function Decide(inp: Inputs, cash: Dec, holdings: map<Id, Holding>, item: Pending, session: Session): (d: Decision)
    requires ValidInputs(inp) && item.instrument in inp.members
    ensures d.Fill? ==> d.conversion.Usable()
  {
    var m := inp.members[item.instrument];
    if session !in m.opens then Refuse(NoPrice)
    else
      var price := m.opens[session];
      var rated := Rate(inp, m.currency, session);
      if rated.None? then Refuse(NoRate)
      else
        var c := rated.value;
        match item.direction
        case Sell =>
          if item.instrument !in holdings then Refuse(NotSelected)
          else Fill(holdings[item.instrument].quantity, price, c)
        case Buy =>
          var budget := if cash < item.budget then cash else item.budget;
          var estimate := AffordableQuantity(inp.configuration.costs, budget, price, c);
          if estimate <= 0 then Refuse(NoCash)
          else
            var quantity := TrimToCash(inp.configuration.costs, cash, estimate, price, c);
            if quantity <= 0 then Refuse(NoCash) else Fill(quantity, price, c)
  }

  function WithSkip(st: State, id: Id, signalSession: Session, reason: SkipReason): State {
    st.(skips := st.skips + [Skip(id, signalSession, reason)])
  }

  function TradeOf(inp: Inputs, item: Pending, session: Session, d: Decision): Trade
    requires d.Fill? && d.conversion.Usable()
  {
    var e := Price(inp.configuration.costs, item.direction, d.quantity, d.price, d.conversion);
    Trade(item.instrument, item.signalSession, session, item.direction, d.quantity, d.price, d.conversion,
          e.brokerage, e.slippage, e.spread, e.cashEffect)
  }

  function Execute(inp: Inputs, st: State, item: Pending, session: Session): State
    requires ValidInputs(inp) && item.instrument in inp.members
  {
    var d := Decide(inp, st.cash, st.holdings, item, session);
    if d.Refuse? then WithSkip(st, item.instrument, item.signalSession, d.reason)
    else
      var drawn := st.(draws := st.draws + 1);
      if st.draws in inp.idFailures then WithSkip(drawn, item.instrument, item.signalSession, NotExecutable)
      else
        var trade := TradeOf(inp, item, session, d);
        drawn.(cash := st.cash + trade.cashEffect,
               holdings := if item.direction == Buy
                           then st.holdings[item.instrument := Holding(d.quantity, item.signalSession)]
                           else st.holdings - {item.instrument},
               trades := st.trades + [trade])
  }

  ghost predicate Known(inp: Inputs, items: seq<Pending>) {
    forall i :: 0 <= i < |items| ==> items[i].instrument in inp.members
  }

  function ExecuteAll(inp: Inputs, st: State, items: seq<Pending>, session: Session): State
    requires ValidInputs(inp) && Known(inp, items)
    decreases |items|
  {
    if items == [] then st
    else
      var last := |items| - 1;
      Execute(inp, ExecuteAll(inp, st, items[..last], session), items[last], session)
  }

  function Due(queue: map<Session, seq<Pending>>, session: Session): seq<Pending> {
    if session in queue then queue[session] else []
  }

  // ---- Valuing the book -----------------------------------------------------------------------

  function MarkOf(inp: Inputs, m: Instrument, quantity: Dec, session: Session): Mark
    requires ValidInputs(inp) && ValidInstrument(m, |inp.calendar|)
  {
    var priced := PriceAsOf(inp, m, session);
    if priced.None? then Unvalued(PositionNoPrice)
    else
      var (price, priceSession) := priced.value;
      var rated := Rate(inp, m.currency, priceSession);
      if rated.None? then Unvalued(PositionNoRate)
      else Valued(price, priceSession, rated.value, ToAccounting(Mul(price, quantity), rated.value))
  }

  ghost predicate Held(inp: Inputs, holdings: map<Id, Holding>, ids: seq<Id>) {
    forall i :: 0 <= i < |ids| ==> ids[i] in holdings && ids[i] in inp.members
  }

  function ValueAll(inp: Inputs, holdings: map<Id, Holding>, ids: seq<Id>, session: Session): Valuation
    requires ValidInputs(inp) && Held(inp, holdings, ids)
    decreases |ids|
  {
    if ids == [] then Valuation([], 0, true)
    else
      var last := |ids| - 1;
      var id := ids[last];
      var v := ValueAll(inp, holdings, ids[..last], session);
      var mark := MarkOf(inp, inp.members[id], holdings[id].quantity, session);
      Valuation(v.positions + [Position(session, id, holdings[id].quantity, mark)],
                if mark.Valued? then v.positionValue + mark.value else v.positionValue,
                v.complete && mark.Valued?)
  }

  function Value(inp: Inputs, holdings: map<Id, Holding>, session: Session): Valuation
    requires ValidInputs(inp) && holdings.Keys <= inp.members.Keys
  {
    ValueAll(inp, holdings, Sorted(holdings.Keys), session)
  }

  function EquityOf(session: Session, cash: Dec, v: Valuation): EquityPoint {
    EquityPoint(session, cash, if v.complete then Some(Statement(v.positionValue, v.Total(cash))) else None)
  }

  // ---- Planning a rebalance -------------------------------------------------------------------

  function IsRebalance(inp: Inputs, session: Session): bool
    requires session < |inp.calendar|
  {
    session == 0
    || match inp.configuration.rebalance
       case Daily => true
       case Weekly => inp.calendar[session].isoWeek != inp.calendar[session - 1].isoWeek
       case Monthly => inp.calendar[session].month != inp.calendar[session - 1].month
       case OtherSchedule => false
  }

  function Considered(ranked: seq<Signal>): set<Id> {
    set i | 0 <= i < |ranked| :: ranked[i].instrument
  }

  /** The first n scored identifiers of the ranking. */
  function Desired(ranked: seq<Signal>, n: int): set<Id>
    decreases |ranked|
  {
    if ranked == [] then {}
    else
      var last := |ranked| - 1;
      var before := Desired(ranked[..last], n);
      if ranked[last].scored && |before| < n then before + {ranked[last].instrument} else before
  }

  function Schedule(inp: Inputs, st: State, id: Id, direction: Direction, session: Session, budget: Dec): State
    requires id in inp.members
  {
    match NextTradedSession(inp, inp.members[id], session)
    case Never(reason) => WithSkip(st, id, session, reason)
    case At(execution) =>
      var item := Pending(st.sequence + 1, id, session, direction, budget);
      st.(sequence := st.sequence + 1, queue := st.queue[execution := Due(st.queue, execution) + [item]])
  }

  ghost predicate Members(inp: Inputs, ids: seq<Id>) {
    forall i :: 0 <= i < |ids| ==> ids[i] in inp.members
  }

  function PlanSales(inp: Inputs, st: State, ids: seq<Id>, selling: set<Id>, session: Session): State
    requires Members(inp, ids)
    decreases |ids|
  {
    if ids == [] then st
    else
      var last := |ids| - 1;
      var before := PlanSales(inp, st, ids[..last], selling, session);
      if ids[last] in selling then Schedule(inp, before, ids[last], Sell, session, 0) else before
  }

  ghost predicate Ranked(inp: Inputs, ranked: seq<Signal>) {
    forall i :: 0 <= i < |ranked| ==> ranked[i].instrument in inp.members
  }

  function PlanEntry(inp: Inputs, st: State, entry: Signal, selling: set<Id>, desired: set<Id>, target: Dec,
                     session: Session): State
    requires entry.instrument in inp.members
  {
    if entry.instrument in selling then st
    else if entry.instrument !in desired then WithSkip(st, entry.instrument, session, NotSelected)
    else if entry.instrument in st.holdings then WithSkip(st, entry.instrument, session, AlreadyHeld)
    else Schedule(inp, st, entry.instrument, Buy, session, target)
  }

  function PlanEntries(inp: Inputs, st: State, ranked: seq<Signal>, selling: set<Id>, desired: set<Id>, target: Dec,
                       session: Session): State
    requires Ranked(inp, ranked)
    decreases |ranked|
  {
    if ranked == [] then st
    else
      var last := |ranked| - 1;
      PlanEntry(inp, PlanEntries(inp, st, ranked[..last], selling, desired, target, session),
                ranked[last], selling, desired, target, session)
  }

  function Selling(holdings: map<Id, Holding>, ranked: seq<Signal>, desired: set<Id>): set<Id> {
    set id | id in holdings && id !in desired && id in Considered(ranked)
  }

  function Target(inp: Inputs, cash: Dec, v: Valuation): Dec
    requires ValidInputs(inp)
  {
    Div(v.Total(cash), FromInt(inp.configuration.sizingN))
  }

  function Plan(inp: Inputs, st: State, session: Session, v: Valuation): State
    requires ValidInputs(inp) && st.holdings.Keys <= inp.members.Keys
  {
    var ranked := SignalsAt(inp, session);
    var desired := Desired(ranked, inp.configuration.sizingN);
    var selling := Selling(st.holdings, ranked, desired);
    var sold := PlanSales(inp, st, Sorted(st.holdings.Keys), selling, session);
    PlanEntries(inp, sold, ranked, selling, desired, Target(inp, st.cash, v), session)
  }

  // ---- One session, and a run of them ---------------------------------------------------------

  /** Everything held or queued names a member, and the queue holds only sessions still to come. */
  ghost predicate Sound(inp: Inputs, st: State, from: nat) {
    && st.holdings.Keys <= inp.members.Keys
    && forall s :: s in st.queue ==> from <= s < |inp.calendar| && Known(inp, st.queue[s])
  }

  function ExecuteDue(inp: Inputs, st: State, session: Session): State
    requires ValidInputs(inp) && Sound(inp, st, session)
  {
    var done := ExecuteAll(inp, st, Due(st.queue, session), session);
    done.(queue := done.queue - {session})
  }

  function Record(inp: Inputs, st: State, session: Session): State
    requires ValidInputs(inp) && st.holdings.Keys <= inp.members.Keys
  {
    var v := Value(inp, st.holdings, session);
    st.(positions := st.positions + v.positions, equity := st.equity + [EquityOf(session, st.cash, v)])
  }

  function Rebalanced(inp: Inputs, st: State, session: Session): State
    requires ValidInputs(inp) && st.holdings.Keys <= inp.members.Keys && session < |inp.calendar|
  {
    if IsRebalance(inp, session)
    then Plan(inp, st.(rebalances := st.rebalances + 1), session, Value(inp, st.holdings, session))
    else st
  }

  function Step(inp: Inputs, st: State, session: Session): (next: State)
    requires ValidInputs(inp) && Sound(inp, st, session) && session < |inp.calendar|
    ensures Sound(inp, next, session + 1)
  {
    ExecuteAllSound(inp, st, Due(st.queue, session), session);
    var executed := ExecuteDue(inp, st, session);
    assert Sound(inp, executed, session + 1);
    var recorded := Record(inp, executed, session);
    RebalancedSound(inp, recorded, session);
    Rebalanced(inp, recorded, session)
  }

  /** The state after the first k sessions. */
  function Run(inp: Inputs, capital: Dec, k: nat): (st: State)
    requires ValidInputs(inp) && k <= |inp.calendar|
    ensures Sound(inp, st, k)
  {
    if k == 0 then Initial(capital) else Step(inp, Run(inp, capital, k - 1), k - 1)
  }

  // ---- Why a step keeps the queue and the book sound -------------------------------------------

  /** Executing touches the book, the outcome lists and the draw counter, and nothing else. */
  lemma ExecuteFrame(inp: Inputs, st: State, item: Pending, session: Session)
    requires ValidInputs(inp) && item.instrument in inp.members
    ensures var done := Execute(inp, st, item, session);
            && done.holdings.Keys <= st.holdings.Keys + {item.instrument}
            && done.queue == st.queue && done.sequence == st.sequence && done.rebalances == st.rebalances
            && done.positions == st.positions && done.equity == st.equity
  {
    hide Decide, Price;
  }

  lemma {:induction false} ExecuteAllSound(inp: Inputs, st: State, items: seq<Pending>, session: Session)
    requires ValidInputs(inp) && Sound(inp, st, session) && Known(inp, items)
    ensures var done := ExecuteAll(inp, st, items, session);
            Sound(inp, done, session) && done.queue == st.queue && done.sequence == st.sequence
            && done.positions == st.positions && done.equity == st.equity && done.rebalances == st.rebalances
    decreases |items|
  {
    hide Execute, ValidInputs;
    if items != [] {
      var last := |items| - 1;
      ExecuteAllSound(inp, st, items[..last], session);
      ExecuteFrame(inp, ExecuteAll(inp, st, items[..last], session), items[last], session);
    }
  }

  lemma NextIsLater(inp: Inputs, m: Instrument, after: Session)
    requires ValidInstrument(m, |inp.calendar|)
    ensures var next := NextTradedSession(inp, m, after);
            next.At? ==> after < next.session < |inp.calendar| && next.session in m.traded
  {
    var found := FirstAfter(m.traded, after);
    if found < |m.traded| { assert m.traded[found] in m.traded; }
  }

  lemma ScheduleCases(inp: Inputs, st: State, id: Id, direction: Direction, session: Session, budget: Dec)
    requires ValidInputs(inp) && id in inp.members
    ensures var scheduled := Schedule(inp, st, id, direction, session, budget);
            match NextTradedSession(inp, inp.members[id], session)
            case Never(reason) => scheduled == WithSkip(st, id, session, reason)
            case At(c) =>
              && session < c < |inp.calendar|
              && scheduled == st.(sequence := st.sequence + 1,
                   queue := st.queue[c := Due(st.queue, c)
                     + [Pending(st.sequence + 1, id, session, direction, budget)]])
  {
    hide Due, WithSkip;
    NextIsLater(inp, inp.members[id], session);
  }

  lemma ScheduleSound(inp: Inputs, st: State, id: Id, direction: Direction, session: Session, budget: Dec)
    requires ValidInputs(inp) && Sound(inp, st, session + 1) && id in inp.members
    ensures var next := Schedule(inp, st, id, direction, session, budget);
            Sound(inp, next, session + 1) && next.holdings == st.holdings && next.cash == st.cash
  {
    NextIsLater(inp, inp.members[id], session);
  }

  lemma {:induction false} PlanSalesSound(inp: Inputs, st: State, ids: seq<Id>, selling: set<Id>, session: Session)
    requires ValidInputs(inp) && Sound(inp, st, session + 1) && Members(inp, ids)
    ensures var next := PlanSales(inp, st, ids, selling, session);
            Sound(inp, next, session + 1) && next.holdings == st.holdings && next.cash == st.cash
    decreases |ids|
  {
    if ids != [] {
      var last := |ids| - 1;
      PlanSalesSound(inp, st, ids[..last], selling, session);
      ScheduleSound(inp, PlanSales(inp, st, ids[..last], selling, session), ids[last], Sell, session, 0);
    }
  }

  lemma {:induction false} PlanEntriesSound(inp: Inputs, st: State, ranked: seq<Signal>, selling: set<Id>,
                                            desired: set<Id>, target: Dec, session: Session)
    requires ValidInputs(inp) && Sound(inp, st, session + 1) && Ranked(inp, ranked)
    ensures var next := PlanEntries(inp, st, ranked, selling, desired, target, session);
            Sound(inp, next, session + 1) && next.holdings == st.holdings && next.cash == st.cash
    decreases |ranked|
  {
    if ranked != [] {
      var last := |ranked| - 1;
      PlanEntriesSound(inp, st, ranked[..last], selling, desired, target, session);
      var before := PlanEntries(inp, st, ranked[..last], selling, desired, target, session);
      ScheduleSound(inp, before, ranked[last].instrument, Buy, session, target);
    }
  }

  lemma RebalancedSound(inp: Inputs, st: State, session: Session)
    requires ValidInputs(inp) && Sound(inp, st, session + 1) && session < |inp.calendar|
    ensures var next := Rebalanced(inp, st, session);
            Sound(inp, next, session + 1) && next.holdings == st.holdings && next.cash == st.cash
  {
    hide PlanSales, PlanEntries, Desired, Div, Value;
    if IsRebalance(inp, session) {
      var start := st.(rebalances := st.rebalances + 1);
      var ranked := SignalsAt(inp, session);
      var desired := Desired(ranked, inp.configuration.sizingN);
      var selling := Selling(st.holdings, ranked, desired);
      PlanSalesSound(inp, start, Sorted(st.holdings.Keys), selling, session);
      var sold := PlanSales(inp, start, Sorted(st.holdings.Keys), selling, session);
      PlanEntriesSound(inp, sold, ranked, selling, desired, Target(inp, st.cash, Value(inp, st.holdings, session)),
        session);
    }
  }
}

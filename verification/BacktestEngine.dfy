/** The engine as it runs: a portfolio and a set of outcome lists updated in place,
    session by session, held to the functions of BacktestModel. */
module BacktestEngine {
  import opened Prelude
  import opened Decimal
  import opened Costs
  import opened BacktestModel
  import opened Ordering
  import Outcomes
  import DecimalText

  class Portfolio {
    var cash: Dec
    var holdings: map<Id, Holding>

    constructor (startingCapital: Dec)
      ensures cash == startingCapital && holdings == map[]
    {
      cash, holdings := startingCapital, map[];
    }

    /** Every held instrument in a stable order, however the map gives them. */
    method HeldOrder() returns (ids: seq<Id>)
      ensures ids == Sorted(holdings.Keys)
    {
      ids := ElementsInOrder(holdings.Keys);
    }
  }

  // ---- The order of queued executions ---------------------------------------------------------

  ghost predicate InOrder(items: seq<Pending>) {
    forall i, j :: 0 <= i < j < |items| ==> items[i].sequence < items[j].sequence
  }

  /** The library sort of due executions by the order they were decided in. */
  function BySequence(items: seq<Pending>): seq<Pending> {
    if items == [] then [] else InsertBySequence(items[0], BySequence(items[1..]))
  }

  function InsertBySequence(item: Pending, items: seq<Pending>): seq<Pending> {
    if items == [] || item.sequence <= items[0].sequence then [item] + items
    else [items[0]] + InsertBySequence(item, items[1..])
  }

  lemma {:induction false} OrderedStays(items: seq<Pending>)
    requires InOrder(items)
    ensures BySequence(items) == items
  {
    if items != [] {
      OrderedStays(items[1..]);
      assert |items| > 1 ==> items[0].sequence < items[1].sequence;
      assert items == [items[0]] + items[1..];
    }
  }

  /** Every queued list was filled in increasing order. */
  ghost predicate QueueInOrder(st: State) {
    forall c :: c in st.queue ==>
      InOrder(st.queue[c]) && forall i :: 0 <= i < |st.queue[c]| ==> st.queue[c][i].sequence <= st.sequence
  }

  lemma ScheduleInOrder(inp: Inputs, st: State, id: Id, d: Direction, s: Session, budget: Dec)
    requires ValidInputs(inp) && id in inp.members && QueueInOrder(st)
    ensures QueueInOrder(Schedule(inp, st, id, d, s, budget))
  {
    ScheduleCases(inp, st, id, d, s, budget);
    hide NextTradedSession, ValidInputs, Schedule;
  }

  lemma {:induction false} SalesInOrder(inp: Inputs, st: State, ids: seq<Id>, selling: set<Id>, s: Session)
    requires ValidInputs(inp) && Members(inp, ids) && QueueInOrder(st)
    ensures QueueInOrder(PlanSales(inp, st, ids, selling, s))
    decreases |ids|
  {
    hide Schedule, QueueInOrder, ValidInputs;
    if ids != [] {
      var last := |ids| - 1;
      SalesInOrder(inp, st, ids[..last], selling, s);
      ScheduleInOrder(inp, PlanSales(inp, st, ids[..last], selling, s), ids[last], Sell, s, 0);
    }
  }

  lemma SkipInOrder(st: State, id: Id, s: Session, reason: SkipReason)
    requires QueueInOrder(st)
    ensures QueueInOrder(WithSkip(st, id, s, reason))
  {
  }

  lemma {:induction false} EntriesInOrder(inp: Inputs, st: State, ranked: seq<Signal>, selling: set<Id>,
                                          desired: set<Id>, target: Dec, s: Session)
    requires ValidInputs(inp) && Ranked(inp, ranked) && QueueInOrder(st)
    ensures QueueInOrder(PlanEntries(inp, st, ranked, selling, desired, target, s))
    decreases |ranked|
  {
    hide Schedule, QueueInOrder, ValidInputs, WithSkip;
    if ranked != [] {
      var last := |ranked| - 1;
      EntriesInOrder(inp, st, ranked[..last], selling, desired, target, s);
      var before := PlanEntries(inp, st, ranked[..last], selling, desired, target, s);
      var id := ranked[last].instrument;
      SkipInOrder(before, id, s, NotSelected);
      SkipInOrder(before, id, s, AlreadyHeld);
      ScheduleInOrder(inp, before, id, Buy, s, target);
    }
  }

  lemma StepInOrder(inp: Inputs, st: State, s: Session)
    requires ValidInputs(inp) && Sound(inp, st, s) && s < |inp.calendar| && QueueInOrder(st)
    ensures QueueInOrder(Step(inp, st, s))
  {
    hide ExecuteAll, PlanSales, PlanEntries, Desired, Div, Value, IsRebalance;
    ExecuteAllSound(inp, st, Due(st.queue, s), s);
    Outcomes.ExecuteDueSound(inp, st, s);
    var executed := ExecuteDue(inp, st, s);
    assert QueueInOrder(executed);
    var recorded := Record(inp, executed, s);
    if IsRebalance(inp, s) {
      var start := recorded.(rebalances := recorded.rebalances + 1);
      var ids, ranked := Sorted(recorded.holdings.Keys), SignalsAt(inp, s);
      var desired := Desired(ranked, inp.configuration.sizingN);
      var selling := Selling(recorded.holdings, ranked, desired);
      SalesInOrder(inp, start, ids, selling, s);
      EntriesInOrder(inp, PlanSales(inp, start, ids, selling, s), ranked, selling, desired,
                     Target(inp, recorded.cash, Value(inp, recorded.holdings, s)), s);
    }
  }

  lemma {:induction false} RunInOrder(inp: Inputs, capital: Dec, k: nat)
    requires ValidInputs(inp) && k <= |inp.calendar|
    ensures QueueInOrder(Run(inp, capital, k))
  {
    hide Step;
    if k > 0 {
      RunInOrder(inp, capital, k - 1);
      StepInOrder(inp, Run(inp, capital, k - 1), k - 1);
    }
  }

  // ---- Draining what never fell due -----------------------------------------------------------

  function DrainItems(items: seq<Pending>): seq<Skip> {
    if items == [] then []
    else
      var last := |items| - 1;
      DrainItems(items[..last]) + [Skip(items[last].instrument, items[last].signalSession, NoNextSession)]
  }

  /** The sessions still holding executions, in order. */
  function QueuedSessions(queue: map<Session, seq<Pending>>): (sessions: seq<Session>)
    ensures forall c :: c in sessions <==> c in queue
  {
    var ordered := Sorted(queue.Keys);
    assert forall i :: 0 <= i < |ordered| ==> ordered[i] in queue.Keys;
    ordered
  }

  function DrainSessions(queue: map<Session, seq<Pending>>, sessions: seq<Session>): seq<Skip>
    requires forall i :: 0 <= i < |sessions| ==> sessions[i] in queue
    decreases |sessions|
  {
    if sessions == [] then []
    else
      var last := |sessions| - 1;
      DrainSessions(queue, sessions[..last]) + DrainItems(BySequence(queue[sessions[last]]))
  }

  // ---- One more element of each fold ----------------------------------------------------------

  lemma MemberIsValid(inp: Inputs, id: Id)
    requires ValidInputs(inp) && id in inp.members
    ensures ValidInstrument(inp.members[id], |inp.calendar|)
  {
  }

  lemma ValueAllStep(inp: Inputs, holdings: map<Id, Holding>, ids: seq<Id>, i: nat, session: Session)
    requires ValidInputs(inp) && Held(inp, holdings, ids) && i < |ids|
    requires ValidInstrument(inp.members[ids[i]], |inp.calendar|)
    ensures var v := ValueAll(inp, holdings, ids[..i], session);
            var mark := MarkOf(inp, inp.members[ids[i]], holdings[ids[i]].quantity, session);
            ValueAll(inp, holdings, ids[..i + 1], session)
            == Valuation(v.positions + [Position(session, ids[i], holdings[ids[i]].quantity, mark)],
                         if mark.Valued? then v.positionValue + mark.value else v.positionValue,
                         v.complete && mark.Valued?)
  {
    hide MarkOf;
    assert ids[..i + 1][..i] == ids[..i];
  }

  lemma ValueAllNone(inp: Inputs, holdings: map<Id, Holding>, session: Session)
    requires ValidInputs(inp) && Held(inp, holdings, [])
    ensures ValueAll(inp, holdings, [], session) == Valuation([], 0, true)
  {
  }

  lemma SalesStep(inp: Inputs, st: State, ids: seq<Id>, i: nat, selling: set<Id>, session: Session)
    requires Members(inp, ids) && i < |ids|
    ensures var before := PlanSales(inp, st, ids[..i], selling, session);
            PlanSales(inp, st, ids[..i + 1], selling, session)
            == if ids[i] in selling then Schedule(inp, before, ids[i], Sell, session, 0) else before
  {
    hide Schedule;
    assert ids[..i + 1][..i] == ids[..i];
  }

  lemma SalesNone(inp: Inputs, st: State, selling: set<Id>, session: Session)
    ensures PlanSales(inp, st, [], selling, session) == st
  {
  }

  lemma SaleChosen(holdings: map<Id, Holding>, ranked: seq<Signal>, desired: set<Id>, id: Id)
    requires id in holdings
    ensures id in Selling(holdings, ranked, desired) <==> id !in desired && id in Considered(ranked)
  {
    hide Considered;
  }

  lemma SellingIsHeld(holdings: map<Id, Holding>, ranked: seq<Signal>, desired: set<Id>, ids: seq<Id>, selling: set<Id>)
    requires ids == Sorted(holdings.Keys) && selling <= Selling(holdings, ranked, desired)
    requires forall j :: 0 <= j < |ids| && ids[j] in Selling(holdings, ranked, desired) ==> ids[j] in selling
    ensures selling == Selling(holdings, ranked, desired)
  {
    hide Considered;
    forall id | id in Selling(holdings, ranked, desired) ensures id in selling {
      assert id in ids;
    }
  }

  lemma EntriesNone(inp: Inputs, st: State, selling: set<Id>, desired: set<Id>, target: Dec, session: Session)
    ensures PlanEntries(inp, st, [], selling, desired, target, session) == st
  {
  }

  lemma EntriesStep(inp: Inputs, st: State, ranked: seq<Signal>, i: nat, selling: set<Id>, desired: set<Id>,
                    target: Dec, session: Session)
    requires Ranked(inp, ranked) && i < |ranked|
    ensures PlanEntries(inp, st, ranked[..i + 1], selling, desired, target, session)
         == PlanEntry(inp, PlanEntries(inp, st, ranked[..i], selling, desired, target, session), ranked[i],
                      selling, desired, target, session)
  {
    hide PlanEntry;
    assert ranked[..i + 1][..i] == ranked[..i];
  }

  lemma DrainNone(queue: map<Session, seq<Pending>>)
    ensures DrainSessions(queue, []) == []
  {
  }

  lemma DrainStep(queue: map<Session, seq<Pending>>, sessions: seq<Session>, i: nat)
    requires i < |sessions| && forall j :: 0 <= j < |sessions| ==> sessions[j] in queue
    ensures DrainSessions(queue, sessions[..i + 1])
         == DrainSessions(queue, sessions[..i]) + DrainItems(BySequence(queue[sessions[i]]))
  {
    hide DrainItems, BySequence;
    assert sessions[..i + 1][..i] == sessions[..i];
  }

  // ---- One run of the engine ------------------------------------------------------------------

  class Engine {
    const inp: Inputs
    const book: Portfolio
    var queue: map<Session, seq<Pending>>
    var sequence: nat
    var trades: seq<Trade>
    var skips: seq<Skip>
    var positions: seq<Position>
    var equity: seq<EquityPoint>
    var rebalances: nat
    var draws: nat

    ghost function Now(): State
      reads this, book
    {
      State(book.cash, book.holdings, queue, sequence, trades, skips, positions, equity, rebalances, draws)
    }

    constructor (inp: Inputs, capital: Dec)
      ensures this.inp == inp && fresh(book) && Now() == Initial(capital)
    {
      this.inp := inp;
      book := new Portfolio(capital);
      queue, sequence, trades, skips, positions, equity, rebalances, draws := map[], 0, [], [], [], [], 0, 0;
    }

    method Skipped(id: Id, signalSession: Session, reason: SkipReason)
      modifies this
      ensures Now() == WithSkip(old(Now()), id, signalSession, reason)
    {
      skips := skips + [Skip(id, signalSession, reason)];
    }

    /** One queued decision, performed or refused. */
    method ExecuteItem(item: Pending, session: Session)
      requires ValidInputs(inp) && item.instrument in inp.members
      modifies this, book
      ensures Now() == Execute(inp, old(Now()), item, session)
    {
      hide Price, AffordableQuantity, ValidInputs;
      var member := inp.members[item.instrument];
      if session !in member.opens {
        Skipped(item.instrument, item.signalSession, NoPrice);
        return;
      }
      var price := member.opens[session];
      var rated := Rate(inp, member.currency, session);
      if rated.None? {
        Skipped(item.instrument, item.signalSession, NoRate);
        return;
      }
      var c := rated.value;
      var model := inp.configuration.costs;
      var quantity := 0;
      match item.direction {
        case Sell =>
          if item.instrument !in book.holdings {
            Skipped(item.instrument, item.signalSession, NotSelected);
            return;
          }
          quantity := book.holdings[item.instrument].quantity;
        case Buy =>
          var budget := item.budget;
          if book.cash < budget {
            budget := book.cash;
          }
          quantity := AffordableQuantity(model, budget, price, c);
          if quantity <= 0 {
            Skipped(item.instrument, item.signalSession, NoCash);
            return;
          }
      }
      var costs := Price(model, item.direction, quantity, price, c);
      if item.direction == Buy {
        ghost var estimate := quantity;
        while quantity > 0 && book.cash + costs.cashEffect < 0
          invariant costs == Price(model, Buy, quantity, price, c)
          invariant TrimToCash(model, book.cash, quantity, price, c) == TrimToCash(model, book.cash, estimate, price, c)
          decreases quantity
        {
          quantity := quantity - ONE;
          costs := Price(model, Buy, quantity, price, c);
        }
        if quantity <= 0 {
          Skipped(item.instrument, item.signalSession, NoCash);
          return;
        }
      }
      Settle(item, session, quantity, price, c, costs);
    }

    /** What follows a priced order: an identifier is drawn, then cash and holdings move. */
    method Settle(item: Pending, session: Session, quantity: Dec, price: Dec, c: Conversion, costs: Execution)
      requires ValidInputs(inp) && item.instrument in inp.members && c.Usable()
      requires costs == Price(inp.configuration.costs, item.direction, quantity, price, c)
      requires Decide(inp, book.cash, book.holdings, item, session) == Fill(quantity, price, c)
      modifies this, book
      ensures Now() == Execute(inp, old(Now()), item, session)
    {
      hide Decide, Price, ValidInputs;
      var failed := draws in inp.idFailures;
      draws := draws + 1;
      if failed {
        Skipped(item.instrument, item.signalSession, NotExecutable);
        return;
      }
      var trade := Trade(item.instrument, item.signalSession, session, item.direction, quantity, price, c,
                         costs.brokerage, costs.slippage, costs.spread, costs.cashEffect);
      book.cash := book.cash + costs.cashEffect;
      match item.direction {
        case Buy => book.holdings := book.holdings[item.instrument := Holding(quantity, item.signalSession)];
        case Sell => book.holdings := book.holdings - {item.instrument};
      }
      trades := trades + [trade];
    }

    /** What one holding is worth at a session, or why that cannot be said. */
    method MarkHolding(id: Id, session: Session) returns (mark: Mark)
      requires ValidInputs(inp) && id in inp.members && id in book.holdings
      ensures mark == MarkOf(inp, inp.members[id], book.holdings[id].quantity, session)
    {
      hide Mul, Div;
      var member := inp.members[id];
      var priced := PriceAsOf(inp, member, session);
      if priced.None? {
        return Unvalued(PositionNoPrice);
      }
      var (price, priceSession) := priced.value;
      var rated := Rate(inp, member.currency, priceSession);
      if rated.None? {
        return Unvalued(PositionNoRate);
      }
      mark := Valued(price, priceSession, rated.value,
        ToAccounting(Mul(price, book.holdings[id].quantity), rated.value));
    }

    /** A row for each holding in identifier order, their sum, and whether none was left out of it. */
    method ValueBook(session: Session) returns (v: Valuation)
      requires ValidInputs(inp) && book.holdings.Keys <= inp.members.Keys
      ensures v == Value(inp, book.holdings, session)
    {
      hide MarkOf, ValidInputs, ValueAll, Now, Sorted;
      var ids := book.HeldOrder();
      assert Held(inp, book.holdings, ids);
      ValueAllNone(inp, book.holdings, session);
      v := Valuation([], 0, true);
      assert ids[..0] == [];
      for i := 0 to |ids|
        invariant v == ValueAll(inp, book.holdings, ids[..i], session)
      {
        MemberIsValid(inp, ids[i]);
        ValueAllStep(inp, book.holdings, ids, i, session);
        var mark := MarkHolding(ids[i], session);
        v := v.(positions := v.positions + [Position(session, ids[i], book.holdings[ids[i]].quantity, mark)]);
        if mark.Unvalued? {
          v := v.(complete := false);
          continue;
        }
        v := v.(positionValue := v.positionValue + mark.value);
      }
      assert ids[..|ids|] == ids;
    }

    /** Queues one execution for the instrument's next traded session, or says why there is none. */
    method Enqueue(id: Id, direction: Direction, session: Session, budget: Dec)
      requires id in inp.members
      modifies this
      ensures Now() == Schedule(inp, old(Now()), id, direction, session, budget)
    {
      hide NextTradedSession;
      match NextTradedSession(inp, inp.members[id], session) {
        case Never(reason) => Skipped(id, session, reason);
        case At(execution) =>
          sequence := sequence + 1;
          var item := Pending(sequence, id, session, direction, budget);
          queue := queue[execution := Due(queue, execution) + [item]];
      }
    }

    /** What the ranking selects: the first n scored, stopping once n are found. */
    method Select(ranked: seq<Signal>) returns (desired: set<Id>)
      ensures desired == Desired(ranked, inp.configuration.sizingN)
    {
      desired := {};
      var i := 0;
      while i < |ranked|
        invariant i <= |ranked| && desired == Desired(ranked[..i], inp.configuration.sizingN)
      {
        assert ranked[..i + 1][..i] == ranked[..i];
        if ranked[i].scored {
          if |desired| >= inp.configuration.sizingN {
            FullSelectionStays(ranked, i, inp.configuration.sizingN);
            return;
          }
          desired := desired + {ranked[i].instrument};
        }
        i := i + 1;
      }
      assert ranked[..i] == ranked;
    }

    /** Turns a session's ranking into queued executions: every sale, then every purchase. */
    method PlanSession(session: Session, v: Valuation)
      requires ValidInputs(inp) && book.holdings.Keys <= inp.members.Keys
      modifies this
      ensures Now() == Plan(inp, old(Now()), session, v)
    {
      hide Desired, Schedule, Div;
      var ranked := SignalsAt(inp, session);
      assert Ranked(inp, ranked) && FromInt(inp.configuration.sizingN) != 0;
      hide ValidInputs;
      var considered: set<Id> := {};
      for i := 0 to |ranked|
        invariant considered == Considered(ranked[..i])
      {
        considered := considered + {ranked[i].instrument};
        assert Considered(ranked[..i + 1]) == Considered(ranked[..i]) + {ranked[i].instrument};
      }
      assert ranked[..|ranked|] == ranked;
      var desired := Select(ranked);
      var target := Div(v.Total(book.cash), FromInt(inp.configuration.sizingN));

      var selling := QueueSales(ranked, considered, desired, session);
      QueueEntries(ranked, selling, desired, target, session);
    }

    /** Sells what is held, considered and no longer wanted. */
    method QueueSales(ranked: seq<Signal>, considered: set<Id>, desired: set<Id>, session: Session)
      returns (selling: set<Id>)
      requires ValidInputs(inp) && book.holdings.Keys <= inp.members.Keys && considered == Considered(ranked)
      modifies this
      ensures selling == Selling(book.holdings, ranked, desired)
      ensures Now() == PlanSales(inp, old(Now()), Sorted(book.holdings.Keys), selling, session)
    {
      hide Schedule, ValidInputs, PlanSales, Considered, Now, Selling;
      ghost var start := Now();
      ghost var all := Selling(book.holdings, ranked, desired);
      selling := {};
      var ids := book.HeldOrder();
      SalesNone(inp, start, all, session);
      assert ids[..0] == [];
      for i := 0 to |ids|
        invariant Members(inp, ids)
        invariant selling <= all && forall j :: 0 <= j < i && ids[j] in all ==> ids[j] in selling
        invariant Now() == PlanSales(inp, start, ids[..i], all, session)
      {
        SalesStep(inp, start, ids, i, all, session);
        SaleChosen(book.holdings, ranked, desired, ids[i]);
        if ids[i] in desired || ids[i] !in considered {
          continue;
        }
        selling := selling + {ids[i]};
        Enqueue(ids[i], Sell, session, 0);
      }
      assert ids[..|ids|] == ids;
      SellingIsHeld(book.holdings, ranked, desired, ids, selling);
    }

    /** Buys what is wanted and not held, and says of everything else why not. */
    method QueueEntries(ranked: seq<Signal>, selling: set<Id>, desired: set<Id>, target: Dec, session: Session)
      requires Ranked(inp, ranked)
      modifies this
      ensures Now() == PlanEntries(inp, old(Now()), ranked, selling, desired, target, session)
    {
      hide Schedule, PlanEntries, WithSkip;
      EntriesNone(inp, Now(), selling, desired, target, session);
      assert ranked[..0] == [];
      for i := 0 to |ranked|
        invariant Now() == PlanEntries(inp, old(Now()), ranked[..i], selling, desired, target, session)
      {
        EntriesStep(inp, old(Now()), ranked, i, selling, desired, target, session);
        var entry := ranked[i];
        if entry.instrument in selling {
          continue;
        }
        if entry.instrument !in desired {
          Skipped(entry.instrument, session, NotSelected);
          continue;
        }
        if entry.instrument in book.holdings {
          Skipped(entry.instrument, session, AlreadyHeld);
          continue;
        }
        Enqueue(entry.instrument, Buy, session, target);
      }
      assert ranked[..|ranked|] == ranked;
    }

    /** Performs the session's own queue, lowest sequence number first, and empties it. */
    method ExecuteDueItems(session: Session)
      requires ValidInputs(inp) && Sound(inp, Now(), session) && QueueInOrder(Now())
      modifies this, book
      ensures Now() == ExecuteDue(inp, old(Now()), session)
    {
      hide Execute, ValidInputs;
      ghost var start := Now();
      var due := BySequence(Due(queue, session));
      OrderedStays(Due(queue, session));
      for i := 0 to |due|
        invariant due == Due(start.queue, session)
        invariant Known(inp, due)
        invariant Now() == ExecuteAll(inp, start, due[..i], session)
      {
        assert due[..i + 1][..i] == due[..i];
        ExecuteItem(due[i], session);
      }
      assert due[..|due|] == due;
      queue := queue - {session};
    }

    /** One session: perform what fell due, value the book, plan if the schedule says so. */
    method SimulateSession(session: Session)
      requires ValidInputs(inp) && session < |inp.calendar| && Sound(inp, Now(), session) && QueueInOrder(Now())
      modifies this, book
      ensures Now() == Step(inp, old(Now()), session)
    {
      hide ExecuteDue, Value, Plan, IsRebalance, ValidInputs;
      ghost var start := Now();
      ExecuteDueItems(session);
      Outcomes.ExecuteDueSound(inp, start, session);
      var v := ValueBook(session);
      positions := positions + v.positions;
      equity := equity + [EquityOf(session, book.cash, v)];
      if IsRebalance(inp, session) {
        rebalances := rebalances + 1;
        PlanSession(session, v);
      }
    }

    method DrainSession(items: seq<Pending>)
      modifies this`skips
      ensures skips == old(skips) + DrainItems(items)
    {
      for j := 0 to |items|
        invariant skips == old(skips) + DrainItems(items[..j])
      {
        assert items[..j + 1][..j] == items[..j];
        skips := skips + [Skip(items[j].instrument, items[j].signalSession, NoNextSession)];
      }
      assert items[..|items|] == items;
    }

    /** A skip for each execution the calendar left no session for. */
    method Drain()
      modifies this`skips
      ensures skips == old(skips) + DrainSessions(queue, QueuedSessions(queue))
    {
      hide DrainItems, BySequence, DrainSessions;
      var sessions := QueuedSessions(queue);
      DrainNone(queue);
      assert sessions[..0] == [];
      for i := 0 to |sessions|
        invariant forall j :: 0 <= j < |sessions| ==> sessions[j] in queue
        invariant skips == old(skips) + DrainSessions(queue, sessions[..i])
      {
        DrainStep(queue, sessions, i);
        DrainSession(BySequence(queue[sessions[i]]));
      }
      assert sessions[..|sessions|] == sessions;
    }

    /** The whole run: the state it ends in is the model's, and draining adds nothing,
        because nothing is left queued when the calendar ends. */
    method Simulate()
      requires ValidInputs(inp) && Now() == Initial(book.cash)
      modifies this, book
      ensures Now() == Run(inp, old(book.cash), |inp.calendar|)
      ensures queue == map[]
    {
      hide Step, ValidInputs, Sound, Run, QueueInOrder;
      ghost var capital := book.cash;
      RunNone(inp, capital);
      for session := 0 to |inp.calendar|
        invariant Now() == Run(inp, capital, session)
      {
        RunInOrder(inp, capital, session);
        RunNext(inp, capital, session);
        SimulateSession(session);
      }
      NothingLeft(inp, capital);
      Drain();
    }
  }

  lemma RunNone(inp: Inputs, capital: Dec)
    requires ValidInputs(inp)
    ensures Run(inp, capital, 0) == Initial(capital)
  {
  }

  lemma RunNext(inp: Inputs, capital: Dec, k: nat)
    requires ValidInputs(inp) && k < |inp.calendar|
    ensures Run(inp, capital, k + 1) == Step(inp, Run(inp, capital, k), k)
  {
    hide Step;
  }

  datatype StartError = InvalidCapital | NoCapital

  /** A run from the configuration's own text: refused before anything is simulated unless
      the text is a positive amount, and otherwise the whole run from that amount. */
  method Backtest(inp: Inputs, startingCapital: string) returns (r: Result<Engine, StartError>)
    requires ValidInputs(inp)
    ensures var capital := DecimalText.ParseDec(startingCapital);
            if capital.Err? then r == Err(InvalidCapital)
            else if capital.value <= 0 then r == Err(NoCapital)
            else r.Ok? && r.value.Now() == Run(inp, capital.value, |inp.calendar|)
  {
    hide ValidInputs, DecimalText.ParseDec;
    var capital := DecimalText.ParseInPlace(startingCapital);
    if capital.Err? {
      return Err(InvalidCapital);
    }
    if capital.value <= 0 {
      return Err(NoCapital);
    }
    var engine := new Engine(inp, capital.value);
    engine.Simulate();
    r := Ok(engine);
  }

  lemma NothingLeft(inp: Inputs, capital: Dec)
    requires ValidInputs(inp)
    ensures Run(inp, capital, |inp.calendar|).queue == map[]
    ensures QueuedSessions(Run(inp, capital, |inp.calendar|).queue) == []
  {
    var st := Run(inp, capital, |inp.calendar|);
    hide Run;
    assert forall c :: c !in st.queue;
  }

  /** Once n are selected, nothing later in the ranking adds to them. */
  lemma {:induction false} FullSelectionStays(ranked: seq<Signal>, i: nat, n: int)
    requires i <= |ranked| && |Desired(ranked[..i], n)| >= n
    ensures Desired(ranked, n) == Desired(ranked[..i], n)
    decreases |ranked|
  {
    if i < |ranked| {
      var last := |ranked| - 1;
      assert ranked[..last][..i] == ranked[..i];
      FullSelectionStays(ranked[..last], i, n);
    } else {
      assert ranked[..i] == ranked;
    }
  }
}

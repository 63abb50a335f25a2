/** Shares are conserved exactly as long as no purchase overwrites a holding, and that is so
    when an instrument trades between any two of its considered signals. */
module Conservation {
  import opened Prelude
  import opened Decimal
  import opened Costs
  import opened BacktestModel
  import opened Ordering
  import opened Outcomes
  import NoLookahead

  /** A session is planned on, and its ranking holds an instrument. */
  ghost predicate Considers(inp: Inputs, s: Session, id: Id) {
    s < |inp.calendar| && IsRebalance(inp, s) && id in Considered(SignalsAt(inp, s))
  }

  ghost predicate TradesIn(m: Instrument, after: Session, through: Session) {
    exists t: Session :: after < t <= through && t in m.opens
  }

  /** Between two sessions that consider an instrument it trades: after the first, by the second. */
  ghost predicate TradesBetweenSignals(inp: Inputs) {
    forall id, s, t :: id in inp.members && s < t && Considers(inp, s, id) && Considers(inp, t, id) ==>
      TradesIn(inp.members[id], s, t)
  }

  /** Shares bought less shares sold. */
  function Net(trades: seq<Trade>, id: Id): Dec {
    if trades == [] then 0
    else
      var t := trades[|trades| - 1];
      Net(trades[..|trades| - 1], id)
      + (if t.instrument != id then 0 else if t.direction == Buy then t.quantity else -t.quantity)
  }

  function HeldQuantity(holdings: map<Id, Holding>, id: Id): Dec {
    if id in holdings then holdings[id].quantity else 0
  }

  /** What is held is what was bought and not sold, and nothing is held in a quantity of none. */
  ghost predicate Conserved(st: State) {
    && (forall id :: Net(st.trades, id) == HeldQuantity(st.holdings, id))
    && (forall id :: id in st.holdings ==> st.holdings[id].quantity > 0)
  }

  /** A queued purchase is of something not held; a queued sale is of something held. */
  ghost predicate Fits(p: Pending, holdings: map<Id, Holding>) {
    if p.direction == Buy then p.instrument !in holdings else p.instrument in holdings
  }

  ghost predicate IsQueued(queue: map<Session, seq<Pending>>, c: Session, i: int) {
    c in queue && 0 <= i < |queue[c]|
  }

  /** No instrument has two queued executions. */
  ghost predicate OneEach(queue: map<Session, seq<Pending>>) {
    forall c, i, d, j ::
      (IsQueued(queue, c, i) && IsQueued(queue, d, j) && queue[c][i].instrument == queue[d][j].instrument)
      ==> c == d && i == j
  }

  /** A queued execution waits, from the signal that was considered, for the first session its
      instrument trades after it. */
  ghost predicate Waits(inp: Inputs, p: Pending, c: Session) {
    && p.signalSession < c
    && p.instrument in inp.members
    && Considers(inp, p.signalSession, p.instrument)
    && forall t: Session :: p.signalSession < t < c ==> t !in inp.members[p.instrument].opens
  }

  ghost predicate QueueFits(inp: Inputs, st: State, from: Session) {
    && OneEach(st.queue)
    && forall c, i :: IsQueued(st.queue, c, i) ==>
         Fits(st.queue[c][i], st.holdings) && Waits(inp, st.queue[c][i], c) && st.queue[c][i].signalSession < from <= c
  }

  // ---- Executing what is due ------------------------------------------------------------------

  lemma NetAppend(trades: seq<Trade>, t: Trade, id: Id)
    ensures Net(trades + [t], id)
         == Net(trades, id) + (if t.instrument != id then 0 else if t.direction == Buy then t.quantity else -t.quantity)
  {
    assert (trades + [t])[..|trades|] == trades;
  }

  lemma FillBought(inp: Inputs, cash: Dec, holdings: map<Id, Holding>, item: Pending, s: Session)
    requires ValidInputs(inp) && item.instrument in inp.members
    ensures var d := Decide(inp, cash, holdings, item, s);
            && (d.Fill? && item.direction == Buy ==> d.quantity > 0)
            && (d.Fill? && item.direction == Sell ==>
                item.instrument in holdings && d.quantity == holdings[item.instrument].quantity)
            && (item.direction == Sell && item.instrument in holdings ==> d != Refuse(NotSelected))
  {
    hide AffordableQuantity, TrimToCash;
  }

  lemma ExecuteConserves(inp: Inputs, st: State, item: Pending, s: Session)
    requires ValidInputs(inp) && item.instrument in inp.members && Conserved(st) && Fits(item, st.holdings)
    ensures var done := Execute(inp, st, item, s);
            Conserved(done)
            && forall id :: id != item.instrument ==> (id in done.holdings <==> id in st.holdings)
  {
    hide Decide, Price, ValidInputs, Net;
    FillBought(inp, st.cash, st.holdings, item, s);
    var d := Decide(inp, st.cash, st.holdings, item, s);
    if d.Fill? {
      forall id { NetAppend(st.trades, TradeOf(inp, item, s, d), id); }
    }
  }

  ghost predicate DistinctItems(items: seq<Pending>) {
    forall i, j :: 0 <= i < j < |items| ==> items[i].instrument != items[j].instrument
  }

  ghost predicate AllFit(items: seq<Pending>, holdings: map<Id, Holding>) {
    forall i :: 0 <= i < |items| ==> Fits(items[i], holdings)
  }

  ghost predicate Untouched(items: seq<Pending>, before: map<Id, Holding>, after: map<Id, Holding>) {
    forall id :: (forall i :: 0 <= i < |items| ==> items[i].instrument != id) ==> (id in after <==> id in before)
  }

  lemma {:induction false} ExecuteAllConserves(inp: Inputs, st: State, items: seq<Pending>, s: Session)
    requires ValidInputs(inp) && Known(inp, items) && Conserved(st) && DistinctItems(items)
             && AllFit(items, st.holdings)
    ensures var done := ExecuteAll(inp, st, items, s);
            Conserved(done) && Untouched(items, st.holdings, done.holdings)
    decreases |items|
  {
    hide Execute, Conserved, ValidInputs;
    if items != [] {
      var last := |items| - 1;
      var before := items[..last];
      ExecuteAllConserves(inp, st, before, s);
      var mid := ExecuteAll(inp, st, before, s);
      assert Fits(items[last], mid.holdings);
      ExecuteConserves(inp, mid, items[last], s);
      var done := ExecuteAll(inp, st, items, s);
      forall id | forall i :: 0 <= i < |items| ==> items[i].instrument != id
        ensures id in done.holdings <==> id in st.holdings
      {
        assert items[last].instrument != id;
        assert forall i :: 0 <= i < |before| ==> before[i].instrument == items[i].instrument;
      }
    }
  }

  lemma DueIsDistinct(inp: Inputs, st: State, s: Session)
    requires QueueFits(inp, st, s)
    ensures DistinctItems(Due(st.queue, s)) && AllFit(Due(st.queue, s), st.holdings)
  {
    var items := Due(st.queue, s);
    forall i, j | 0 <= i < j < |items| ensures items[i].instrument != items[j].instrument {
      assert IsQueued(st.queue, s, i) && IsQueued(st.queue, s, j);
    }
    forall i | 0 <= i < |items| ensures Fits(items[i], st.holdings) {
      assert IsQueued(st.queue, s, i);
    }
  }

  lemma ExecuteDueConserves(inp: Inputs, st: State, s: Session)
    requires ValidInputs(inp) && Sound(inp, st, s) && s < |inp.calendar| && Conserved(st) && QueueFits(inp, st, s)
    ensures var next := ExecuteDue(inp, st, s);
            Conserved(next) && QueueFits(inp, next, s + 1)
  {
    DueIsDistinct(inp, st, s);
    ExecuteAllSound(inp, st, Due(st.queue, s), s);
    ExecuteAllConserves(inp, st, Due(st.queue, s), s);
    hide ExecuteAll, ValidInputs, Net, Waits;
    var next := ExecuteDue(inp, st, s);
    var items := Due(st.queue, s);
    forall c, i | IsQueued(next.queue, c, i) ensures
        Fits(next.queue[c][i], next.holdings) && Waits(inp, next.queue[c][i], c)
          && next.queue[c][i].signalSession < s + 1 <= c
    {
      var p := st.queue[c][i];
      assert IsQueued(st.queue, c, i);
      forall j | 0 <= j < |items| ensures items[j].instrument != p.instrument {
        assert IsQueued(st.queue, s, j);
      }
    }
    forall c, i, d, j | IsQueued(next.queue, c, i) && IsQueued(next.queue, d, j)
        && next.queue[c][i].instrument == next.queue[d][j].instrument ensures c == d && i == j
    {
      assert IsQueued(st.queue, c, i) && IsQueued(st.queue, d, j);
    }
  }

  // ---- Planning -------------------------------------------------------------------------------

  /** Nothing queued is considered today, except what today's plan has already dealt with. */
  ghost predicate OnlyDealtWith(st: State, considered: set<Id>, dealt: set<Id>) {
    forall c, i :: IsQueued(st.queue, c, i) ==>
      st.queue[c][i].instrument !in considered || st.queue[c][i].instrument in dealt
  }

  lemma NextWaits(inp: Inputs, m: Instrument, s: Session)
    requires ValidInstrument(m, |inp.calendar|)
    ensures var next := NextTradedSession(inp, m, s);
            next.At? ==> forall t: Session :: s < t < next.session ==> t !in m.opens
  {
    var next := NextTradedSession(inp, m, s);
    var found := FirstAfter(m.traded, s);
    assert forall j :: 0 <= j < |m.traded| && s < m.traded[j] ==> found <= j;
    assert next.At? ==> forall j :: 0 <= j < |m.traded| && s < m.traded[j] ==> next.session <= m.traded[j];
  }

  lemma ScheduleFits(inp: Inputs, st: State, id: Id, d: Direction, s: Session, budget: Dec,
                     considered: set<Id>, dealt: set<Id>)
    requires ValidInputs(inp) && id in inp.members && QueueFits(inp, st, s + 1) && OnlyDealtWith(st, considered, dealt)
    requires id in considered && id !in dealt && (d == Buy <==> id !in st.holdings) && Considers(inp, s, id)
    ensures var next := Schedule(inp, st, id, d, s, budget);
            && QueueFits(inp, next, s + 1) && OnlyDealtWith(next, considered, dealt + {id})
            && next.trades == st.trades && next.holdings == st.holdings
  {
    ScheduleCases(inp, st, id, d, s, budget);
    NextWaits(inp, inp.members[id], s);
    hide NextTradedSession, ValidInputs, Schedule, Considers;
    var chosen := NextTradedSession(inp, inp.members[id], s);
    if chosen.At? {
      QueuedFits(inp, st, chosen.session, Pending(st.sequence + 1, id, s, d, budget), s, considered, dealt);
    }
  }

  lemma QueuedFits(inp: Inputs, st: State, c: Session, p: Pending, s: Session, considered: set<Id>, dealt: set<Id>)
    requires QueueFits(inp, st, s + 1) && OnlyDealtWith(st, considered, dealt)
    requires p.instrument in considered && p.instrument !in dealt && p.signalSession == s
    requires Fits(p, st.holdings) && Waits(inp, p, c)
    ensures var next := st.(sequence := st.sequence + 1, queue := st.queue[c := Due(st.queue, c) + [p]]);
            QueueFits(inp, next, s + 1) && OnlyDealtWith(next, considered, dealt + {p.instrument})
  {
    assert s < c;
    hide Fits, Waits;
    var next := st.queue[c := Due(st.queue, c) + [p]];
    forall e, i | IsQueued(next, e, i)
      ensures (IsQueued(st.queue, e, i) && next[e][i] == st.queue[e][i] && next[e][i].instrument != p.instrument)
           || (e == c && i == |Due(st.queue, c)| && next[e][i] == p)
    {
      if e != c || i < |Due(st.queue, c)| { assert IsQueued(st.queue, e, i); }
    }
  }

  lemma {:induction false} SalesFit(inp: Inputs, st: State, ids: seq<Id>, selling: set<Id>, s: Session,
                                    considered: set<Id>)
    requires ValidInputs(inp) && Members(inp, ids) && QueueFits(inp, st, s + 1) && OnlyDealtWith(st, considered, {})
    requires selling <= considered && selling <= st.holdings.Keys
             && (forall id :: id in selling ==> Considers(inp, s, id))
    requires forall i, j :: 0 <= i < j < |ids| ==> ids[i] < ids[j]
    ensures var next := PlanSales(inp, st, ids, selling, s);
            && QueueFits(inp, next, s + 1) && OnlyDealtWith(next, considered, selling * Elements(ids))
            && next.trades == st.trades && next.holdings == st.holdings
    decreases |ids|
  {
    hide Schedule, ValidInputs, QueueFits, OnlyDealtWith, Considers;
    if ids == [] {
      assert selling * Elements(ids) == {};
    } else {
      var last := |ids| - 1;
      var before := ids[..last];
      SalesFit(inp, st, before, selling, s, considered);
      assert Elements(ids) == Elements(before) + {ids[last]};
      assert ids[last] !in Elements(before);
      if ids[last] in selling {
        ScheduleFits(inp, PlanSales(inp, st, before, selling, s), ids[last], Sell, s, 0, considered,
          selling * Elements(before));
        assert selling * Elements(ids) == selling * Elements(before) + {ids[last]};
      } else {
        assert selling * Elements(ids) == selling * Elements(before);
      }
    }
  }

  lemma DealtGrows(st: State, considered: set<Id>, dealt: set<Id>, more: set<Id>)
    requires OnlyDealtWith(st, considered, dealt) && dealt <= more
    ensures OnlyDealtWith(st, considered, more)
  {
  }

  lemma {:induction false} EntriesFit(inp: Inputs, st: State, ranked: seq<Signal>, selling: set<Id>, desired: set<Id>,
                                      target: Dec, s: Session, considered: set<Id>)
    requires ValidInputs(inp) && Ranked(inp, ranked) && UniqueRanking(ranked)
    requires QueueFits(inp, st, s + 1) && OnlyDealtWith(st, considered, selling) && Considered(ranked) <= considered
    requires forall id :: id in Considered(ranked) ==> Considers(inp, s, id)
    ensures var next := PlanEntries(inp, st, ranked, selling, desired, target, s);
            && QueueFits(inp, next, s + 1) && OnlyDealtWith(next, considered, selling + Considered(ranked))
            && next.trades == st.trades && next.holdings == st.holdings
    decreases |ranked|
  {
    hide Schedule, ValidInputs, QueueFits, OnlyDealtWith, Considers;
    if ranked == [] {
      assert selling + Considered(ranked) == selling;
    } else {
      var last := |ranked| - 1;
      var before, id := ranked[..last], ranked[last].instrument;
      assert Considered(ranked) == Considered(before) + {id};
      assert id !in Considered(before);
      EntriesFit(inp, st, before, selling, desired, target, s, considered);
      EntryFits(inp, PlanEntries(inp, st, before, selling, desired, target, s), ranked[last],
                selling, desired, target, s, considered, selling + Considered(before));
      assert selling + Considered(ranked) == selling + Considered(before) + {id};
    }
  }

  lemma EntryFits(inp: Inputs, st: State, entry: Signal, selling: set<Id>, desired: set<Id>, target: Dec, s: Session,
                  considered: set<Id>, dealt: set<Id>)
    requires ValidInputs(inp) && entry.instrument in inp.members && QueueFits(inp, st, s + 1)
    requires OnlyDealtWith(st, considered, dealt) && entry.instrument in considered
             && Considers(inp, s, entry.instrument)
    requires entry.instrument in dealt ==> entry.instrument in selling
    ensures var next := PlanEntry(inp, st, entry, selling, desired, target, s);
            && QueueFits(inp, next, s + 1) && OnlyDealtWith(next, considered, dealt + {entry.instrument})
            && next.trades == st.trades && next.holdings == st.holdings
  {
    hide Schedule, ValidInputs, Considers;
    var id := entry.instrument;
    DealtGrows(st, considered, dealt, dealt + {id});
    if id !in selling && id in desired && id !in st.holdings {
      ScheduleFits(inp, st, id, Buy, s, target, considered, dealt);
    }
  }

  lemma PlanFits(inp: Inputs, st: State, s: Session)
    requires ValidInputs(inp) && UniqueRankings(inp) && TradesBetweenSignals(inp) && Sound(inp, st, s + 1)
             && s < |inp.calendar|
    requires Conserved(st) && QueueFits(inp, st, s + 1)
    requires forall c, i :: IsQueued(st.queue, c, i) ==> st.queue[c][i].signalSession < s
    ensures var next := Rebalanced(inp, st, s);
            Conserved(next) && QueueFits(inp, next, s + 1)
  {
    hide PlanSales, PlanEntries, Desired, Value, Div, Net;
    if IsRebalance(inp, s) {
      var start := st.(rebalances := st.rebalances + 1);
      var ranked, ids := SignalsAt(inp, s), Sorted(st.holdings.Keys);
      var considered := Considered(ranked);
      var desired := Desired(ranked, inp.configuration.sizingN);
      var selling := Selling(st.holdings, ranked, desired);
      NothingWaitingIsConsidered(inp, start, s);
      SalesFit(inp, start, ids, selling, s, considered);
      assert selling * Elements(ids) == selling;
      var sold := PlanSales(inp, start, ids, selling, s);
      assert UniqueRanking(SignalsAt(inp, s));
      EntriesFit(inp, sold, ranked, selling, desired, Target(inp, st.cash, Value(inp, st.holdings, s)), s, considered);
    }
  }

  /** What waits from an earlier signal has not traded since, so it is not considered today. */
  lemma NothingWaitingIsConsidered(inp: Inputs, st: State, s: Session)
    requires ValidInputs(inp) && TradesBetweenSignals(inp) && QueueFits(inp, st, s + 1)
    requires s < |inp.calendar| && IsRebalance(inp, s)
    requires forall c, i :: IsQueued(st.queue, c, i) ==> st.queue[c][i].signalSession < s
    ensures OnlyDealtWith(st, Considered(SignalsAt(inp, s)), {})
  {
    forall c, i | IsQueued(st.queue, c, i) ensures st.queue[c][i].instrument !in Considered(SignalsAt(inp, s)) {
      var p := st.queue[c][i];
      assert Waits(inp, p, c);
      assert !TradesIn(inp.members[p.instrument], p.signalSession, s);
      assert !Considers(inp, s, p.instrument);
    }
  }

  lemma StepConserves(inp: Inputs, st: State, s: Session)
    requires ValidInputs(inp) && UniqueRankings(inp) && TradesBetweenSignals(inp) && Sound(inp, st, s)
             && s < |inp.calendar|
    requires Conserved(st) && QueueFits(inp, st, s)
    ensures Conserved(Step(inp, st, s)) && QueueFits(inp, Step(inp, st, s), s + 1)
  {
    hide ExecuteAll, Value, Rebalanced, Net, ValidInputs, TradesBetweenSignals, UniqueRankings, Waits, Fits;
    ExecuteDueConserves(inp, st, s);
    ExecuteDueSound(inp, st, s);
    ExecuteAllSound(inp, st, Due(st.queue, s), s);
    var executed := ExecuteDue(inp, st, s);
    forall c, i | IsQueued(executed.queue, c, i) ensures executed.queue[c][i].signalSession < s {
      assert IsQueued(st.queue, c, i);
    }
    var recorded := Record(inp, executed, s);
    PlanFits(inp, recorded, s);
  }

  /** Share conservation over every run: if every instrument trades between two of its
      considered signals, none has
      two queued executions, every queued purchase is of something not
      held and every queued sale of something held, and each holding is exactly the
      shares bought less the shares sold. */
  lemma {:induction false} SharesConserved(inp: Inputs, capital: Dec, k: nat)
    requires ValidInputs(inp) && UniqueRankings(inp) && TradesBetweenSignals(inp) && k <= |inp.calendar|
    ensures var st := Run(inp, capital, k);
            Conserved(st) && QueueFits(inp, st, k)
  {
    hide Step;
    if k > 0 {
      SharesConserved(inp, capital, k - 1);
      StepConserves(inp, Run(inp, capital, k - 1), k - 1);
    }
  }

  /** At the moment each due execution is performed, a purchase finds its instrument
      unheld and a sale finds it held, so no holding is ever overwritten. */
  lemma DueFindsItsBook(inp: Inputs, capital: Dec, s: Session, j: nat)
    requires ValidInputs(inp) && UniqueRankings(inp) && TradesBetweenSignals(inp) && s < |inp.calendar|
    requires j < |Due(Run(inp, capital, s).queue, s)|
    ensures var st := Run(inp, capital, s);
            var items := Due(st.queue, s);
            Known(inp, items[..j]) && Fits(items[j], ExecuteAll(inp, st, items[..j], s).holdings)
  {
    hide Run, ExecuteAll, Conserved, ValidInputs;
    SharesConserved(inp, capital, s);
    var st := Run(inp, capital, s);
    var items := Due(st.queue, s);
    DueIsDistinct(inp, st, s);
    var before := items[..j];
    ExecuteAllConserves(inp, st, before, s);
    assert forall i :: 0 <= i < |before| ==> before[i].instrument == items[i].instrument;
  }

  // ---- Exactly when ---------------------------------------------------------------------------

  /** What the trades alone leave held: a purchase sets its quantity, a sale removes it. */
  function Book(trades: seq<Trade>): map<Id, Dec> {
    if trades == [] then map[]
    else
      var t := trades[|trades| - 1];
      var before := Book(trades[..|trades| - 1]);
      if t.direction == Buy then before[t.instrument := t.quantity] else before - {t.instrument}
  }

  /** A filled purchase found its instrument held. */
  ghost predicate Overwrites(trades: seq<Trade>, i: nat)
    requires i < |trades|
  {
    trades[i].direction == Buy && trades[i].instrument in Book(trades[..i])
  }

  ghost predicate NothingOverwritten(trades: seq<Trade>) {
    forall i :: 0 <= i < |trades| ==> !Overwrites(trades, i)
  }

  /** The shares of an instrument that purchases overwrote. */
  ghost function Lost(trades: seq<Trade>, id: Id): Dec {
    if trades == [] then 0
    else
      var last := |trades| - 1;
      Lost(trades[..last], id)
      + (if trades[last].instrument == id && Overwrites(trades, last) then Book(trades[..last])[id] else 0)
  }

  lemma BookAppend(trades: seq<Trade>, t: Trade, id: Id)
    ensures Book(trades + [t]) == if t.direction == Buy then Book(trades)[t.instrument := t.quantity]
            else Book(trades) - {t.instrument}
    ensures Lost(trades + [t], id)
         == Lost(trades, id)
            + (if t.instrument == id && t.direction == Buy && id in Book(trades) then Book(trades)[id] else 0)
    ensures forall i :: 0 <= i < |trades| ==> (Overwrites(trades + [t], i) <==> Overwrites(trades, i))
    ensures Overwrites(trades + [t], |trades|) <==> t.direction == Buy && t.instrument in Book(trades)
  {
    assert (trades + [t])[..|trades|] == trades;
    forall i | 0 <= i < |trades| ensures Overwrites(trades + [t], i) <==> Overwrites(trades, i) {
      assert (trades + [t])[..i] == trades[..i];
    }
  }

  /** The holdings are the book of the trades, all in positive quantities; what was bought and not
      sold is held or lost; and something is lost once something was overwritten, and only then. */
  ghost predicate Ledger(st: State) {
    && (forall id :: id in st.holdings <==> id in Book(st.trades))
    && (forall id :: id in st.holdings ==> st.holdings[id].quantity == Book(st.trades)[id] > 0)
    && (forall id :: Net(st.trades, id) == HeldQuantity(st.holdings, id) + Lost(st.trades, id))
    && (forall id :: Lost(st.trades, id) >= 0)
    && (NothingOverwritten(st.trades) <==> forall id :: Lost(st.trades, id) == 0)
  }

  lemma TradeKeepsLedger(st: State, t: Trade, holding: Holding)
    requires Ledger(st)
    requires t.direction == Buy ==> t.quantity > 0 && holding.quantity == t.quantity
    requires t.direction == Sell ==> t.instrument in st.holdings && t.quantity == st.holdings[t.instrument].quantity
    ensures Ledger(st.(trades := st.trades + [t],
                       holdings := if t.direction == Buy then st.holdings[t.instrument := holding]
                         else st.holdings - {t.instrument}))
  {
    hide Net, Book, Lost, Overwrites;
    var trades, more := st.trades, st.trades + [t];
    forall id
      ensures Net(more, id)
           == Net(trades, id)
              + (if t.instrument != id then 0 else if t.direction == Buy then t.quantity else -t.quantity)
      ensures Lost(more, id)
           == Lost(trades, id)
              + (if t.instrument == id && t.direction == Buy && id in Book(trades) then Book(trades)[id] else 0)
    {
      NetAppend(trades, t, id);
      BookAppend(trades, t, id);
    }
    BookAppend(trades, t, 0);
    OverwriteStep(trades, t);
  }

  lemma OverwriteStep(trades: seq<Trade>, t: Trade)
    ensures NothingOverwritten(trades + [t])
            <==> NothingOverwritten(trades) && !(t.direction == Buy && t.instrument in Book(trades))
  {
    hide Book, Lost, Overwrites;
    BookAppend(trades, t, 0);
    assert |trades + [t]| == |trades| + 1;
    if NothingOverwritten(trades + [t]) {
      assert !Overwrites(trades + [t], |trades|);
      forall i | 0 <= i < |trades| ensures !Overwrites(trades, i) { assert !Overwrites(trades + [t], i); }
    }
  }

  lemma ExecuteKeepsLedger(inp: Inputs, st: State, item: Pending, s: Session)
    requires ValidInputs(inp) && item.instrument in inp.members && Ledger(st)
    ensures Ledger(Execute(inp, st, item, s))
  {
    hide Decide, Price, ValidInputs, Net, Book, Lost, NothingOverwritten;
    FillBought(inp, st.cash, st.holdings, item, s);
    var d := Decide(inp, st.cash, st.holdings, item, s);
    if d.Fill? {
      TradeKeepsLedger(st, TradeOf(inp, item, s, d), Holding(d.quantity, item.signalSession));
    }
  }

  lemma {:induction false} ExecuteAllKeepsLedger(inp: Inputs, st: State, items: seq<Pending>, s: Session)
    requires ValidInputs(inp) && Known(inp, items) && Ledger(st)
    ensures Ledger(ExecuteAll(inp, st, items, s))
    decreases |items|
  {
    hide Execute, Ledger, ValidInputs;
    if items != [] {
      ExecuteAllKeepsLedger(inp, st, items[..|items| - 1], s);
      ExecuteKeepsLedger(inp, ExecuteAll(inp, st, items[..|items| - 1], s), items[|items| - 1], s);
    }
  }

  lemma LedgerCongruent(x: State, y: State)
    requires Ledger(x) && x.trades == y.trades && x.holdings == y.holdings
    ensures Ledger(y)
  {
  }

  lemma {:induction false} RunKeepsLedger(inp: Inputs, capital: Dec, k: nat)
    requires ValidInputs(inp) && k <= |inp.calendar|
    ensures Ledger(Run(inp, capital, k))
  {
    hide Step, Ledger, ValidInputs;
    if k == 0 {
      NothingHeldYet(capital);
    } else {
      RunKeepsLedger(inp, capital, k - 1);
      StepKeepsLedger(inp, Run(inp, capital, k - 1), k - 1);
    }
  }

  lemma NothingHeldYet(capital: Dec)
    ensures Ledger(Initial(capital))
  {
  }

  lemma StepKeepsLedger(inp: Inputs, st: State, s: Session)
    requires ValidInputs(inp) && Sound(inp, st, s) && s < |inp.calendar| && Ledger(st)
    ensures Ledger(Step(inp, st, s))
  {
    hide Ledger, Value, Rebalanced, ValidInputs, ExecuteAll;
    ExecuteDueSound(inp, st, s);
    ExecuteAllSound(inp, st, Due(st.queue, s), s);
    ExecuteAllKeepsLedger(inp, st, Due(st.queue, s), s);
    var done := ExecuteAll(inp, st, Due(st.queue, s), s);
    var recorded := Record(inp, ExecuteDue(inp, st, s), s);
    LedgerCongruent(done, recorded);
    NoLookahead.PlanRecordsNothing(inp, recorded, s);
    LedgerCongruent(recorded, Rebalanced(inp, recorded, s));
  }

  /** Exactly when: over any run at all, what is held is what was bought and not sold if and only
      if no filled purchase found its instrument held. */
  lemma ConservedExactly(inp: Inputs, capital: Dec, k: nat)
    requires ValidInputs(inp) && k <= |inp.calendar|
    ensures var st := Run(inp, capital, k);
            Conserved(st) <==> NothingOverwritten(st.trades)
  {
    RunKeepsLedger(inp, capital, k);
    hide *;
    LedgerMeans(Run(inp, capital, k));
  }

  lemma LedgerMeans(st: State)
    requires Ledger(st)
    ensures Conserved(st) <==> NothingOverwritten(st.trades)
  {
    hide Net, Book, Lost, NothingOverwritten;
    if Conserved(st) {
      forall id ensures Lost(st.trades, id) == 0 { assert Net(st.trades, id) == HeldQuantity(st.holdings, id); }
    }
  }

  // ---- Signals on sessions the instrument has no bar for --------------------------------------

  /** Instrument 7 has bars only on the last of three sessions, and signals on the
      first two, as when its early bars came from the fallback provider: features
      read them and the backtest does not. */
  function FallbackInputs(): Inputs {
    var quiet := Instrument("SEK", [2], map[2 := ONE], map[2 := ONE]);
    var other := Instrument("SEK", [0, 1], map[0 := ONE, 1 := ONE], map[0 := ONE, 1 := ONE]);
    Inputs(Configuration("SEK", 2, Daily, 5, Model(0, 0, 0, 0)), [Day(1, 1), Day(1, 1), Day(1, 1)],
           map[7 := quiet, 8 := other], map[], map[0 := [Signal(7, true)], 1 := [Signal(7, true)]], {})
  }

  lemma FallbackInputsAreValid()
    ensures ValidInputs(FallbackInputs()) && UniqueRankings(FallbackInputs()) && !TradesBetweenSignals(FallbackInputs())
  {
    var inp := FallbackInputs();
    assert ValidInstrument(inp.members[7], 3) && ValidInstrument(inp.members[8], 3);
    FallbackDoesNotTrade();
    hide FallbackInputs, Considers, TradesIn;
    assert Considers(inp, 0, 7) && Considers(inp, 1, 7) && !TradesIn(inp.members[7], 0, 1);
  }

  lemma FallbackDoesNotTrade()
    ensures var inp := FallbackInputs();
            7 in inp.members && Considers(inp, 0, 7) && Considers(inp, 1, 7) && !TradesIn(inp.members[7], 0, 1)
  {
    var inp := FallbackInputs();
    assert SignalsAt(inp, 0) == [Signal(7, true)] && SignalsAt(inp, 1) == [Signal(7, true)];
    assert [Signal(7, true)][0].instrument == 7;
  }

  /** The one signal of an early session is queued for the only session its instrument trades. */
  lemma FallbackEntry(start: State, s: Session)
    requires s < 2 && start.holdings == map[] && ValidInputs(FallbackInputs())
             && Ranked(FallbackInputs(), [Signal(7, true)])
    ensures PlanEntries(FallbackInputs(), start, [Signal(7, true)], {}, {7}, 50 * ONE, s)
         == start.(sequence := start.sequence + 1,
                   queue := start.queue[2 := Due(start.queue, 2) + [Pending(start.sequence + 1, 7, s, Buy, 50 * ONE)]])
  {
    var inp, ranked := FallbackInputs(), [Signal(7, true)];
    assert ranked[..0] == [];
    assert FirstAfter(inp.members[7].traded, s) == 0;
    assert NextTradedSession(inp, inp.members[7], s) == At(2);
    assert PlanEntries(inp, start, ranked[..0], {}, {7}, 50 * ONE, s) == start;
  }

  /** Planning on either early session queues one purchase of instrument 7 for the last. */
  lemma FallbackPlan(st: State, s: Session)
    requires s < 2 && st.cash == 100 * ONE && st.holdings == map[] && s !in st.queue
    requires ValidInputs(FallbackInputs()) && Sound(FallbackInputs(), st, s)
    ensures var next := Step(FallbackInputs(), st, s);
            && next.cash == st.cash && next.holdings == map[] && next.trades == st.trades && next.draws == st.draws
            && next.queue == st.queue[2 := Due(st.queue, 2) + [Pending(st.sequence + 1, 7, s, Buy, 50 * ONE)]]
            && next.sequence == st.sequence + 1
  {
    var inp := FallbackInputs();
    var recorded := Record(inp, ExecuteDue(inp, st, s), s);
    assert ExecuteDue(inp, st, s) == st.(queue := st.queue - {s}) && st.queue - {s} == st.queue;
    assert Sorted(st.holdings.Keys) == [];
    var ranked := SignalsAt(inp, s);
    assert ranked == [Signal(7, true)];
    assert ranked[..0] == [];
    assert Desired(ranked, 2) == {7} by { assert Desired([], 2) == {}; }
    assert Selling(map[], ranked, {7}) == {};
    assert Target(inp, st.cash, Value(inp, map[], s)) == 50 * ONE by { HalfEvenExact(50 * ONE, FromInt(2)); }
    hide PlanEntries, Target, Desired, ValidInputs, Sound;
    FallbackEntry(recorded.(rebalances := recorded.rebalances + 1), s);
  }

  lemma FallbackFill(st: State, item: Pending)
    requires ValidInputs(FallbackInputs()) && st.cash >= 50 * ONE && item.instrument == 7
    requires item.direction == Buy && item.budget == 50 * ONE
    ensures var next := Execute(FallbackInputs(), st, item, 2);
            && next.cash == st.cash - 50 * ONE && HeldQuantity(next.holdings, 7) == 50 * ONE
            && Net(next.trades, 7) == Net(st.trades, 7) + 50 * ONE
  {
    var inp := FallbackInputs();
    var costs := inp.configuration.costs;
    assert Mul(ONE, 0) == 0 && Mul(50 * ONE, 0) == 0;
    assert PerShare(costs, ONE, Same) == ONE;
    HalfEvenExact(50 * ONE, ONE);
    assert AffordableQuantity(costs, 50 * ONE, ONE, Same) == FromInt(50);
    MulWhole(ONE, 50);
    assert Price(costs, Buy, FromInt(50), ONE, Same).cashEffect == -50 * ONE;
    assert TrimToCash(costs, st.cash, FromInt(50), ONE, Same) == FromInt(50);
    var d := Decide(inp, st.cash, st.holdings, item, 2);
    assert d == Fill(FromInt(50), ONE, Same);
    NetAppend(st.trades, TradeOf(inp, item, 2, d), 7);
  }

  /** The condition is needed: here both early signals queue a purchase for the last
      session, both are filled, and the second overwrites the first, so a hundred
      shares are bought and fifty are held. */
  lemma SharesLostWithoutABar()
    ensures ValidInputs(FallbackInputs()) && UniqueRankings(FallbackInputs()) && |FallbackInputs().calendar| == 3
    ensures var st := Run(FallbackInputs(), 100 * ONE, 3);
            Net(st.trades, 7) == 100 * ONE && HeldQuantity(st.holdings, 7) == 50 * ONE
  {
    hide Step, ValidInputs, UniqueRankings, Net;
    FallbackInputsAreValid();
    var st := FallbackQueued();
    FallbackExecute(st, Due(st.queue, 2)[0], Due(st.queue, 2)[1]);
  }

  /** By the last session both purchases are queued for it. */
  lemma FallbackQueued() returns (st: State)
    requires ValidInputs(FallbackInputs())
    ensures st == Run(FallbackInputs(), 100 * ONE, 2) && st.cash == 100 * ONE && st.trades == []
    ensures Due(st.queue, 2) == [Pending(1, 7, 0, Buy, 50 * ONE), Pending(2, 7, 1, Buy, 50 * ONE)]
  {
    hide FallbackInputs, Step, ValidInputs;
    var inp := FallbackInputs();
    assert |inp.calendar| == 3 by { FallbackLength(); }
    var r0, r1 := Run(inp, 100 * ONE, 0), Run(inp, 100 * ONE, 1);
    FallbackPlan(r0, 0);
    FallbackPlan(r1, 1);
    st := Run(inp, 100 * ONE, 2);
  }

  lemma FallbackLength()
    ensures |FallbackInputs().calendar| == 3
  {
  }

  /** Both purchases are filled; the second one's fifty shares are what is held. */
  lemma FallbackBought(st: State, p: Pending, q: Pending)
    requires ValidInputs(FallbackInputs()) && st.cash == 100 * ONE && st.trades == []
    requires p.instrument == q.instrument == 7
    requires p.direction == q.direction == Buy && p.budget == q.budget == 50 * ONE
    ensures Known(FallbackInputs(), [p, q])
    ensures var done := ExecuteAll(FallbackInputs(), st, [p, q], 2);
            Net(done.trades, 7) == 100 * ONE && HeldQuantity(done.holdings, 7) == 50 * ONE
  {
    hide Execute, ValidInputs;
    var inp := FallbackInputs();
    assert [p, q][..1] == [p] && [p][..0] == [];
    var first := Execute(inp, st, p, 2);
    assert ExecuteAll(inp, st, [p], 2) == first by { assert ExecuteAll(inp, st, [], 2) == st; }
    FallbackFill(st, p);
    FallbackFill(first, q);
  }

  lemma FallbackExecute(st: State, p: Pending, q: Pending)
    requires ValidInputs(FallbackInputs()) && Sound(FallbackInputs(), st, 2) && st.cash == 100 * ONE && st.trades == []
    requires Due(st.queue, 2) == [p, q] && p.instrument == q.instrument == 7
    requires p.direction == q.direction == Buy && p.budget == q.budget == 50 * ONE
    ensures var next := Step(FallbackInputs(), st, 2);
            Net(next.trades, 7) == 100 * ONE && HeldQuantity(next.holdings, 7) == 50 * ONE
  {
    var inp := FallbackInputs();
    FallbackLength();
    FallbackBought(st, p, q);
    hide Execute, ExecuteAll, Net, FallbackInputs, ValidInputs, Value, HeldQuantity;
    ExecuteDueSound(inp, st, 2);
    var recorded := Record(inp, ExecuteDue(inp, st, 2), 2);
    RebalancedSound(inp, recorded, 2);
    PlanTradesNothing(inp, recorded, 2);
  }

  lemma PlanTradesNothing(inp: Inputs, st: State, s: Session)
    requires ValidInputs(inp) && Sound(inp, st, s + 1) && s < |inp.calendar|
    ensures Rebalanced(inp, st, s).trades == st.trades
  {
    NoLookahead.PlanRecordsNothing(inp, st, s);
  }
}

/** In which order a run trades: by session, then as decided, sales before the purchases they fund. */
module ExecutionOrder {
  import opened Prelude
  import opened Costs
  import opened Decimal
  import opened BacktestModel
  import opened Ordering
  import opened NoLookahead
  import opened Outcomes

  /** One decision: when it was made, which way, and for what. */
  datatype Turn = Turn(signalSession: Session, direction: Direction, instrument: Id)

  function ItemTurn(p: Pending): Turn {
    Turn(p.signalSession, p.direction, p.instrument)
  }

  function TradeTurn(t: Trade): Turn {
    Turn(t.signalSession, t.direction, t.instrument)
  }

  ghost predicate RankedAs(inp: Inputs, s: Session, id: Id, i: int) {
    0 <= i < |SignalsAt(inp, s)| && SignalsAt(inp, s)[i].instrument == id
  }

  ghost predicate RankedBefore(inp: Inputs, s: Session, x: Id, y: Id, i: int, j: int) {
    i < j && RankedAs(inp, s, x, i) && RankedAs(inp, s, y, j)
  }

  /** An earlier decision comes first; of one session's, its sales, by identifier, and then its
      purchases, as they are ranked. */
  ghost predicate Precedes(inp: Inputs, x: Turn, y: Turn) {
    x.signalSession < y.signalSession
    || (x.signalSession == y.signalSession
        && match x.direction
           case Sell => y.direction == Buy || x.instrument < y.instrument
           case Buy =>
             y.direction == Buy
             && exists i, j :: RankedBefore(inp, x.signalSession, x.instrument, y.instrument, i, j))
  }

  ghost predicate InTurn(inp: Inputs, items: seq<Pending>) {
    forall i, j :: 0 <= i < j < |items| ==> Precedes(inp, ItemTurn(items[i]), ItemTurn(items[j]))
  }

  // ---- The queue ------------------------------------------------------------------------------

  /** Decided before a session, or at it among the sales or the first entries of its ranking. */
  ghost predicate DecidedBy(inp: Inputs, x: Turn, s: Session, sold: set<Id>, entries: nat) {
    x.signalSession < s
    || (x.signalSession == s
        && if x.direction == Sell then x.instrument in sold else exists i ::
           i < entries && RankedAs(inp, s, x.instrument, i))
  }

  ghost predicate QueueInTurn(inp: Inputs, queue: map<Session, seq<Pending>>, s: Session, sold: set<Id>, entries: nat) {
    forall c :: c in queue ==>
      InTurn(inp, queue[c]) && forall i :: 0 <= i < |queue[c]| ==>
        DecidedBy(inp, ItemTurn(queue[c][i]), s, sold, entries)
  }

  /** A sale follows what was decided before, if its identifier is greater than those sold; a
      purchase does, if its entry is the next. */
  lemma DecidedPrecedes(inp: Inputs, x: Turn, y: Turn, sold: set<Id>, entries: nat)
    requires DecidedBy(inp, x, y.signalSession, sold, entries)
    requires match y.direction
             case Sell => entries == 0 && forall id :: id in sold ==> id < y.instrument
             case Buy => RankedAs(inp, y.signalSession, y.instrument, entries)
    ensures Precedes(inp, x, y)
  {
    if x.signalSession == y.signalSession && x.direction == Buy {
      var i :| i < entries && RankedAs(inp, y.signalSession, x.instrument, i);
      assert y.direction == Buy ==> RankedBefore(inp, x.signalSession, x.instrument, y.instrument, i, entries);
    }
  }

  lemma ScheduleInTurn(inp: Inputs, st: State, id: Id, d: Direction, s: Session, budget: Dec, sold: set<Id>,
                       entries: nat)
    requires ValidInputs(inp) && id in inp.members && QueueInTurn(inp, st.queue, s, sold, entries)
    requires match d
             case Sell => entries == 0 && forall x :: x in sold ==> x < id
             case Buy => RankedAs(inp, s, id, entries)
    ensures QueueInTurn(inp, Schedule(inp, st, id, d, s, budget).queue, s,
                        if d == Sell then sold + {id} else sold, if d == Buy then entries + 1 else entries)
  {
    hide Precedes, NextTradedSession, ValidInputs;
    var sold', entries' := if d == Sell then sold + {id} else sold, if d == Buy then entries + 1 else entries;
    var next := Schedule(inp, st, id, d, s, budget).queue;
    forall x: Turn | DecidedBy(inp, x, s, sold, entries)
      ensures DecidedBy(inp, x, s, sold', entries') && Precedes(inp, x, Turn(s, d, id))
    {
      DecidedPrecedes(inp, x, Turn(s, d, id), sold, entries);
    }
    assert DecidedBy(inp, Turn(s, d, id), s, sold', entries');
  }

  lemma {:induction false} SalesInTurn(inp: Inputs, st: State, ids: seq<Id>, selling: set<Id>, s: Session)
    requires ValidInputs(inp) && Members(inp, ids) && AscendingOrder(ids) && QueueInTurn(inp, st.queue, s, {}, 0)
    ensures QueueInTurn(inp, PlanSales(inp, st, ids, selling, s).queue, s, set id | id in ids, 0)
    decreases |ids|
  {
    hide Schedule, DecidedBy, InTurn, ValidInputs;
    if ids == [] {
      assert (set id | id in ids) == {};
    } else {
      var last := |ids| - 1;
      SalesInTurn(inp, st, ids[..last], selling, s);
      var before, sold := PlanSales(inp, st, ids[..last], selling, s), set id | id in ids[..last];
      assert (set id | id in ids) == sold + {ids[last]};
      if ids[last] in selling {
        ScheduleInTurn(inp, before, ids[last], Sell, s, 0, sold, 0);
      } else {
        MoreDecided(inp, before.queue, s, sold, sold + {ids[last]}, 0, 0);
      }
    }
  }

  lemma MoreDecided(inp: Inputs, queue: map<Session, seq<Pending>>, s: Session, sold: set<Id>, sold': set<Id>,
                    entries: nat, entries': nat)
    requires QueueInTurn(inp, queue, s, sold, entries) && sold <= sold' && entries <= entries'
    ensures QueueInTurn(inp, queue, s, sold', entries')
  {
    hide InTurn;
    forall x: Turn | DecidedBy(inp, x, s, sold, entries) ensures DecidedBy(inp, x, s, sold', entries') { }
  }

  lemma {:induction false} EntriesInTurn(inp: Inputs, st: State, k: nat, selling: set<Id>, desired: set<Id>,
                                         target: Dec, s: Session, sold: set<Id>)
    requires ValidInputs(inp) && k <= |SignalsAt(inp, s)| && Ranked(inp, SignalsAt(inp, s))
    requires QueueInTurn(inp, st.queue, s, sold, 0)
    ensures QueueInTurn(inp, PlanEntries(inp, st, SignalsAt(inp, s)[..k], selling, desired, target, s).queue, s, sold,
            k)
    decreases k
  {
    hide Schedule, DecidedBy, InTurn, QueueInTurn, ValidInputs;
    var ranked := SignalsAt(inp, s);
    if k > 0 {
      EntriesInTurn(inp, st, k - 1, selling, desired, target, s, sold);
      assert ranked[..k][..k - 1] == ranked[..k - 1];
      var before := PlanEntries(inp, st, ranked[..k - 1], selling, desired, target, s);
      MoreDecided(inp, before.queue, s, sold, sold, k - 1, k);
      ScheduleInTurn(inp, before, ranked[k - 1].instrument, Buy, s, target, sold, k - 1);
    }
  }

  lemma PlanInTurn(inp: Inputs, st: State, s: Session, v: Valuation)
    requires ValidInputs(inp) && st.holdings.Keys <= inp.members.Keys && QueueInTurn(inp, st.queue, s, {}, 0)
    ensures QueueInTurn(inp, Plan(inp, st, s, v).queue, s + 1, {}, 0)
  {
    hide Desired, Div, PlanSales, PlanEntries, QueueInTurn;
    var ranked := SignalsAt(inp, s);
    var desired := Desired(ranked, inp.configuration.sizingN);
    var selling, ids := Selling(st.holdings, ranked, desired), Sorted(st.holdings.Keys);
    SalesInTurn(inp, st, ids, selling, s);
    var sold := PlanSales(inp, st, ids, selling, s);
    EntriesInTurn(inp, sold, |ranked|, selling, desired, Target(inp, st.cash, v), s, set id | id in ids);
    assert ranked[..|ranked|] == ranked;
    NextSessionToo(inp, Plan(inp, st, s, v).queue, s, set id | id in ids, |ranked|);
  }

  lemma NextSessionToo(inp: Inputs, queue: map<Session, seq<Pending>>, s: Session, sold: set<Id>, entries: nat)
    requires QueueInTurn(inp, queue, s, sold, entries)
    ensures QueueInTurn(inp, queue, s + 1, {}, 0)
  {
    hide InTurn;
  }

  // ---- The trades -----------------------------------------------------------------------------

  /** Earlier sessions first, and within one in turn. */
  ghost predicate TradesInTurn(inp: Inputs, trades: seq<Trade>) {
    forall i, j :: 0 <= i < j < |trades| ==>
      trades[i].executionSession < trades[j].executionSession
      || (trades[i].executionSession == trades[j].executionSession
          && Precedes(inp, TradeTurn(trades[i]), TradeTurn(trades[j])))
  }

  /** So far only sessions before this one, and this one's first decisions. */
  ghost predicate TradesOf(trades: seq<Trade>, c: Session, items: seq<Pending>) {
    forall i :: 0 <= i < |trades| ==>
      trades[i].executionSession < c
      || (trades[i].executionSession == c && exists k :: 0 <= k < |items| && ItemTurn(items[k]) == TradeTurn(trades[i]))
  }

  lemma {:induction false} ExecuteAllInTurn(inp: Inputs, st: State, items: seq<Pending>, c: Session)
    requires ValidInputs(inp) && Known(inp, items) && InTurn(inp, items) && TradesInTurn(inp, st.trades)
    requires TradesOf(st.trades, c, [])
    ensures var done := ExecuteAll(inp, st, items, c);
            TradesInTurn(inp, done.trades) && TradesOf(done.trades, c, items)
    decreases |items|
  {
    hide Execute, Precedes, TradesOf, TradesInTurn, ValidInputs;
    if items != [] {
      var last := |items| - 1;
      assert InTurn(inp, items[..last]);
      ExecuteAllInTurn(inp, st, items[..last], c);
      ExecuteInTurn(inp, ExecuteAll(inp, st, items[..last], c), items, c);
    }
  }

  lemma ExecuteInTurn(inp: Inputs, st: State, items: seq<Pending>, c: Session)
    requires ValidInputs(inp) && items != [] && items[|items| - 1].instrument in inp.members && InTurn(inp, items)
    requires TradesInTurn(inp, st.trades) && TradesOf(st.trades, c, items[..|items| - 1])
    ensures var done := Execute(inp, st, items[|items| - 1], c);
            TradesInTurn(inp, done.trades) && TradesOf(done.trades, c, items)
  {
    hide Decide, Precedes, Price, ValidInputs;
    var last := |items| - 1;
    var done := Execute(inp, st, items[last], c);
    forall i | 0 <= i < |st.trades| && st.trades[i].executionSession == c
      ensures exists k :: 0 <= k < last && ItemTurn(items[k]) == TradeTurn(st.trades[i])
    {
      var k :| 0 <= k < last && ItemTurn(items[..last][k]) == TradeTurn(st.trades[i]);
      assert ItemTurn(items[k]) == TradeTurn(st.trades[i]);
    }
    if done.trades != st.trades {
      assert TradeTurn(done.trades[|st.trades|]) == ItemTurn(items[last]);
    }
  }

  /** Over every run: trades come session by session; of one session's, those decided earlier
      first; and of one decision's, its sales, by identifier, before its purchases, as ranked. */
  lemma {:induction false} TradesComeInTurn(inp: Inputs, capital: Dec, k: nat)
    requires ValidInputs(inp) && k <= |inp.calendar|
    ensures TradesInTurn(inp, Run(inp, capital, k).trades)
    ensures QueueInTurn(inp, Run(inp, capital, k).queue, k, {}, 0)
  {
    hide Step, TradesInTurn, QueueInTurn, ValidInputs;
    if k == 0 {
      NothingInTurn(inp, capital);
    } else {
      TradesComeInTurn(inp, capital, k - 1);
      RunWithin(inp, capital, k - 1);
      StepInTurn(inp, Run(inp, capital, k - 1), k - 1);
    }
  }

  lemma NothingInTurn(inp: Inputs, capital: Dec)
    ensures TradesInTurn(inp, Initial(capital).trades) && QueueInTurn(inp, Initial(capital).queue, 0, {}, 0)
  {
  }

  lemma StepInTurn(inp: Inputs, st: State, s: Session)
    requires ValidInputs(inp) && Sound(inp, st, s) && s < |inp.calendar| && RecordedWithin(st, s)
    requires TradesInTurn(inp, st.trades) && QueueInTurn(inp, st.queue, s, {}, 0)
    ensures TradesInTurn(inp, Step(inp, st, s).trades) && QueueInTurn(inp, Step(inp, st, s).queue, s + 1, {}, 0)
  {
    hide ExecuteAll, Value, Plan, TradesInTurn, DecidedBy, InTurn, IsRebalance;
    var items := Due(st.queue, s);
    DueInTurn(inp, st, s);
    ExecuteAllInTurn(inp, st, items, s);
    ExecuteAllSound(inp, st, items, s);
    ExecuteDueSound(inp, st, s);
    var recorded := Record(inp, ExecuteDue(inp, st, s), s);
    PlanRecordsNothing(inp, recorded, s);
    if IsRebalance(inp, s) {
      PlanInTurn(inp, recorded.(rebalances := recorded.rebalances + 1), s, Value(inp, recorded.holdings, s));
    } else {
      NextSessionToo(inp, recorded.queue, s, {}, 0);
    }
  }

  lemma DueInTurn(inp: Inputs, st: State, s: Session)
    requires QueueInTurn(inp, st.queue, s, {}, 0) && RecordedWithin(st, s)
    ensures InTurn(inp, Due(st.queue, s)) && TradesOf(st.trades, s, [])
  {
    hide DecidedBy, Precedes;
  }
}

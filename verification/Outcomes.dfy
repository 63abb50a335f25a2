/** Every signal considered on a rebalance session ends as exactly one trade or one skip. */
module Outcomes {
  import opened Prelude
  import opened Decimal
  import opened Costs
  import opened BacktestModel
  import opened Ordering

  /** A considered signal: whose, and as of when. */
  type Ref = (Id, Session)

  function TradeRefs(trades: seq<Trade>): multiset<Ref> {
    if trades == [] then multiset{}
    else
      var last := |trades| - 1;
      TradeRefs(trades[..last]) + multiset{(trades[last].instrument, trades[last].signalSession)}
  }

  function SkipRefs(skips: seq<Skip>): multiset<Ref> {
    if skips == [] then multiset{}
    else
      var last := |skips| - 1;
      SkipRefs(skips[..last]) + multiset{(skips[last].instrument, skips[last].signalSession)}
  }

  function ItemRefs(items: seq<Pending>): multiset<Ref> {
    if items == [] then multiset{}
    else
      var last := |items| - 1;
      ItemRefs(items[..last]) + multiset{(items[last].instrument, items[last].signalSession)}
  }

  function QueueRefs(queue: map<Session, seq<Pending>>, from: nat, to: nat): multiset<Ref>
    requires from <= to
    decreases if from < to then to - from else 0
  {
    if from == to then multiset{} else ItemRefs(Due(queue, from)) + QueueRefs(queue, from + 1, to)
  }

  /** Every outcome so far, with what is still queued from a session on. */
  function Accounted(st: State, from: nat, to: nat): multiset<Ref>
    requires from <= to
  {
    TradeRefs(st.trades) + SkipRefs(st.skips) + QueueRefs(st.queue, from, to)
  }

  function RefSet(ids: set<Id>, s: Session): multiset<Ref> {
    multiset(set id | id in ids :: (id, s))
  }

  /** What the strategy expressed a view on, over the rebalance sessions before k. */
  function ConsideredBefore(inp: Inputs, k: nat): multiset<Ref>
    requires k <= |inp.calendar|
  {
    if k == 0 then multiset{}
    else
      ConsideredBefore(inp, k - 1)
      + (if IsRebalance(inp, k - 1) then RefSet(Considered(SignalsAt(inp, k - 1)), k - 1) else multiset{})
  }

  /** A ranking holds each instrument once, as the signals' primary key ensures. */
  ghost predicate UniqueRanking(ranked: seq<Signal>) {
    forall i, j :: 0 <= i < j < |ranked| ==> ranked[i].instrument != ranked[j].instrument
  }

  ghost predicate UniqueRankings(inp: Inputs) {
    forall s :: UniqueRanking(SignalsAt(inp, s))
  }

  // ---- Sums of multisets -----------------------------------------------------------------------

  lemma PlusAssociates(a: multiset<Ref>, b: multiset<Ref>, c: multiset<Ref>)
    ensures a + (b + c) == (a + b) + c
  {
  }

  lemma PlusSwaps(a: multiset<Ref>, b: multiset<Ref>, c: multiset<Ref>)
    ensures (a + b) + c == (a + c) + b
  {
  }

  // ---- Bookkeeping on the three lists ---------------------------------------------------------

  lemma TradeAppend(trades: seq<Trade>, t: Trade)
    ensures TradeRefs(trades + [t]) == TradeRefs(trades) + multiset{(t.instrument, t.signalSession)}
  {
    assert (trades + [t])[..|trades|] == trades;
  }

  lemma SkipAppend(skips: seq<Skip>, k: Skip)
    ensures SkipRefs(skips + [k]) == SkipRefs(skips) + multiset{(k.instrument, k.signalSession)}
  {
    assert (skips + [k])[..|skips|] == skips;
  }

  lemma ItemAppend(items: seq<Pending>, p: Pending)
    ensures ItemRefs(items + [p]) == ItemRefs(items) + multiset{(p.instrument, p.signalSession)}
  {
    assert (items + [p])[..|items|] == items;
  }

  lemma QueueUnfold(queue: map<Session, seq<Pending>>, from: nat, to: nat)
    requires from < to
    ensures QueueRefs(queue, from, to) == ItemRefs(Due(queue, from)) + QueueRefs(queue, from + 1, to)
  {
  }

  lemma {:induction false} QueueSame(x: map<Session, seq<Pending>>, y: map<Session, seq<Pending>>, from: nat, to: nat)
    requires from <= to && forall c :: from <= c < to ==> Due(x, c) == Due(y, c)
    ensures QueueRefs(x, from, to) == QueueRefs(y, from, to)
    decreases if from < to then to - from else 0
  {
    if from < to { QueueSame(x, y, from + 1, to); }
  }

  lemma {:induction false} QueueAppend(queue: map<Session, seq<Pending>>, c: Session, p: Pending, from: nat, to: nat)
    requires from <= c < to
    ensures QueueRefs(queue[c := Due(queue, c) + [p]], from, to)
         == QueueRefs(queue, from, to) + multiset{(p.instrument, p.signalSession)}
    decreases if from < to then to - from else 0
  {
    hide ItemRefs, QueueRefs;
    var next := queue[c := Due(queue, c) + [p]];
    if from == c {
      ItemAppend(Due(queue, c), p);
      QueueSame(next, queue, from + 1, to);
    } else {
      QueueAppend(queue, c, p, from + 1, to);
      assert Due(next, from) == Due(queue, from);
    }
    QueueUnfold(queue, from, to);
    QueueUnfold(next, from, to);
    hide Due;
    OneMore(ItemRefs(Due(queue, from)), QueueRefs(queue, from + 1, to), ItemRefs(Due(next, from)),
            QueueRefs(next, from + 1, to), multiset{(p.instrument, p.signalSession)});
  }

  lemma OneMore(here: multiset<Ref>, later: multiset<Ref>, here': multiset<Ref>, later': multiset<Ref>,
                ref: multiset<Ref>)
    requires (here' == here + ref && later' == later) || (here' == here && later' == later + ref)
    ensures here' + later' == here + later + ref
  {
  }

  lemma {:induction false} QueueEmpty(queue: map<Session, seq<Pending>>, from: nat, to: nat)
    requires from <= to && forall c :: from <= c < to ==> c !in queue
    ensures QueueRefs(queue, from, to) == multiset{}
    decreases if from < to then to - from else 0
  {
    if from < to { QueueEmpty(queue, from + 1, to); }
  }

  // ---- Each step accounts for exactly what it considers ---------------------------------------

  lemma ExecuteAccounts(inp: Inputs, st: State, item: Pending, s: Session)
    requires ValidInputs(inp) && item.instrument in inp.members
    ensures var next := Execute(inp, st, item, s);
            TradeRefs(next.trades) + SkipRefs(next.skips)
            == TradeRefs(st.trades) + SkipRefs(st.skips) + multiset{(item.instrument, item.signalSession)}
  {
    hide Decide, Price, TradeRefs, SkipRefs, ValidInputs;
    var d := Decide(inp, st.cash, st.holdings, item, s);
    var done, ref := TradeRefs(st.trades), multiset{(item.instrument, item.signalSession)};
    PlusAssociates(done, SkipRefs(st.skips), ref);
    if d.Refuse? {
      SkipAppend(st.skips, Skip(item.instrument, item.signalSession, d.reason));
    } else {
      SkipAppend(st.skips, Skip(item.instrument, item.signalSession, NotExecutable));
      TradeAppend(st.trades, TradeOf(inp, item, s, d));
      PlusSwaps(done, ref, SkipRefs(st.skips));
    }
  }

  lemma {:induction false} ExecuteAllAccounts(inp: Inputs, st: State, items: seq<Pending>, s: Session)
    requires ValidInputs(inp) && Known(inp, items)
    ensures var next := ExecuteAll(inp, st, items, s);
            TradeRefs(next.trades) + SkipRefs(next.skips)
            == TradeRefs(st.trades) + SkipRefs(st.skips) + ItemRefs(items)
    decreases |items|
  {
    hide Execute;
    if items != [] {
      var last := |items| - 1;
      ExecuteAllAccounts(inp, st, items[..last], s);
      ExecuteAccounts(inp, ExecuteAll(inp, st, items[..last], s), items[last], s);
      PlusAssociates(TradeRefs(st.trades) + SkipRefs(st.skips), ItemRefs(items[..last]),
                     multiset{(items[last].instrument, items[last].signalSession)});
    }
  }

  lemma ExecuteDueAccounts(inp: Inputs, st: State, s: Session)
    requires ValidInputs(inp) && Sound(inp, st, s) && s < |inp.calendar|
    ensures Accounted(ExecuteDue(inp, st, s), s + 1, |inp.calendar|) == Accounted(st, s, |inp.calendar|)
  {
    hide ExecuteAll, TradeRefs, SkipRefs, ItemRefs, QueueRefs, ValidInputs;
    var items, n := Due(st.queue, s), |inp.calendar|;
    ExecuteAllSound(inp, st, items, s);
    ExecuteAllAccounts(inp, st, items, s);
    var next := ExecuteDue(inp, st, s);
    QueueSame(next.queue, st.queue, s + 1, n);
    QueueUnfold(st.queue, s, n);
    PlusAssociates(TradeRefs(st.trades) + SkipRefs(st.skips), ItemRefs(items), QueueRefs(st.queue, s + 1, n));
  }

  lemma ScheduleAccounts(inp: Inputs, st: State, id: Id, d: Direction, s: Session, budget: Dec)
    requires ValidInputs(inp) && id in inp.members && s < |inp.calendar|
    ensures Accounted(Schedule(inp, st, id, d, s, budget), s + 1, |inp.calendar|)
         == Accounted(st, s + 1, |inp.calendar|) + multiset{(id, s)}
  {
    hide *;
    ScheduleCases(inp, st, id, d, s, budget);
    match NextTradedSession(inp, inp.members[id], s)
    case Never(reason) => SkipAccounts(inp, st, id, s, reason);
    case At(c) => QueuedAccounts(inp, st, c, Pending(st.sequence + 1, id, s, d, budget), s + 1);
  }

  /** Queuing an execution accounts for its signal. */
  lemma QueuedAccounts(inp: Inputs, st: State, c: Session, p: Pending, from: nat)
    requires from <= c < |inp.calendar|
    ensures Accounted(st.(sequence := st.sequence + 1, queue := st.queue[c := Due(st.queue, c) + [p]]), from,
            |inp.calendar|)
         == Accounted(st, from, |inp.calendar|) + multiset{(p.instrument, p.signalSession)}
  {
    hide TradeRefs, SkipRefs, QueueRefs, Due;
    QueueAppend(st.queue, c, p, from, |inp.calendar|);
    PlusAssociates(TradeRefs(st.trades) + SkipRefs(st.skips), QueueRefs(st.queue, from, |inp.calendar|),
                   multiset{(p.instrument, p.signalSession)});
  }

  lemma SkipSum(a: multiset<Ref>, b: multiset<Ref>, ref: multiset<Ref>, c: multiset<Ref>)
    ensures a + (b + ref) + c == a + b + c + ref
  {
  }

  /** Adding a skip accounts for its signal. */
  lemma SkipAccounts(inp: Inputs, st: State, id: Id, s: Session, reason: SkipReason)
    requires s < |inp.calendar|
    ensures Accounted(WithSkip(st, id, s, reason), s + 1, |inp.calendar|)
         == Accounted(st, s + 1, |inp.calendar|) + multiset{(id, s)}
  {
    hide TradeRefs, SkipRefs, QueueRefs;
    SkipAppend(st.skips, Skip(id, s, reason));
    SkipSum(TradeRefs(st.trades), SkipRefs(st.skips), multiset{(id, s)}, QueueRefs(st.queue, s + 1, |inp.calendar|));
  }

  lemma RefSetAdd(ids: set<Id>, id: Id, s: Session)
    requires id !in ids
    ensures RefSet(ids + {id}, s) == RefSet(ids, s) + multiset{(id, s)}
  {
    var refs := set x | x in ids :: (x, s);
    assert (set x | x in ids + {id} :: (x, s)) == refs + {(id, s)};
  }

  function Elements(ids: seq<Id>): set<Id> {
    set i | 0 <= i < |ids| :: ids[i]
  }

  lemma {:induction false} SalesAccount(inp: Inputs, st: State, ids: seq<Id>, selling: set<Id>, s: Session)
    requires ValidInputs(inp) && Members(inp, ids) && s < |inp.calendar|
    requires forall i, j :: 0 <= i < j < |ids| ==> ids[i] < ids[j]
    ensures Accounted(PlanSales(inp, st, ids, selling, s), s + 1, |inp.calendar|)
         == Accounted(st, s + 1, |inp.calendar|) + RefSet(selling * Elements(ids), s)
    decreases |ids|
  {
    hide Schedule, ValidInputs, Accounted;
    if ids == [] {
      assert selling * Elements(ids) == {};
    } else {
      var last := |ids| - 1;
      var before := ids[..last];
      SalesAccount(inp, st, before, selling, s);
      assert Elements(ids) == Elements(before) + {ids[last]};
      assert ids[last] !in Elements(before);
      if ids[last] in selling {
        ScheduleAccounts(inp, PlanSales(inp, st, before, selling, s), ids[last], Sell, s, 0);
        assert selling * Elements(ids) == (selling * Elements(before)) + {ids[last]};
        RefSetAdd(selling * Elements(before), ids[last], s);
      } else {
        assert selling * Elements(ids) == selling * Elements(before);
      }
    }
  }

  lemma EntryAccounts(inp: Inputs, st: State, entry: Signal, selling: set<Id>, desired: set<Id>, target: Dec,
                      s: Session)
    requires ValidInputs(inp) && entry.instrument in inp.members && s < |inp.calendar|
    ensures Accounted(PlanEntry(inp, st, entry, selling, desired, target, s), s + 1, |inp.calendar|)
         == Accounted(st, s + 1, |inp.calendar|)
            + (if entry.instrument in selling then multiset{} else multiset{(entry.instrument, s)})
  {
    hide Schedule, ValidInputs, WithSkip, Accounted;
    SkipAccounts(inp, st, entry.instrument, s, NotSelected);
    SkipAccounts(inp, st, entry.instrument, s, AlreadyHeld);
    ScheduleAccounts(inp, st, entry.instrument, Buy, s, target);
  }

  lemma {:induction false} EntriesAccount(inp: Inputs, st: State, ranked: seq<Signal>, selling: set<Id>,
                                          desired: set<Id>, target: Dec, s: Session)
    requires ValidInputs(inp) && Ranked(inp, ranked) && UniqueRanking(ranked) && s < |inp.calendar|
    ensures Accounted(PlanEntries(inp, st, ranked, selling, desired, target, s), s + 1, |inp.calendar|)
         == Accounted(st, s + 1, |inp.calendar|) + RefSet(Considered(ranked) - selling, s)
    decreases |ranked|
  {
    hide PlanEntry, ValidInputs, Accounted;
    if ranked == [] {
      assert Considered(ranked) - selling == {};
    } else {
      var last := |ranked| - 1;
      var before, id := ranked[..last], ranked[last].instrument;
      EntriesAccount(inp, st, before, selling, desired, target, s);
      EntryAccounts(inp, PlanEntries(inp, st, before, selling, desired, target, s), ranked[last], selling, desired,
        target, s);
      assert Considered(ranked) == Considered(before) + {id};
      assert id !in Considered(before);
      if id in selling {
        assert Considered(ranked) - selling == Considered(before) - selling;
      } else {
        assert Considered(ranked) - selling == (Considered(before) - selling) + {id};
        RefSetAdd(Considered(before) - selling, id, s);
      }
    }
  }

  lemma RefSetUnion(x: set<Id>, y: set<Id>, s: Session)
    requires x !! y
    ensures RefSet(x, s) + RefSet(y, s) == RefSet(x + y, s)
  {
    var p, q := set id | id in x :: (id, s), set id | id in y :: (id, s);
    assert (set id | id in x + y :: (id, s)) == p + q;
    assert p !! q;
    assert multiset(p) + multiset(q) == multiset(p + q);
  }

  /** A plan accounts for its whole ranking, once each: a sale, a skip or a purchase. */
  lemma RebalancedAccounts(inp: Inputs, st: State, s: Session)
    requires ValidInputs(inp) && UniqueRankings(inp) && Sound(inp, st, s + 1) && s < |inp.calendar|
    ensures Accounted(Rebalanced(inp, st, s), s + 1, |inp.calendar|)
         == Accounted(st, s + 1, |inp.calendar|)
            + (if IsRebalance(inp, s) then RefSet(Considered(SignalsAt(inp, s)), s) else multiset{})
  {
    hide PlanSales, PlanEntries, Desired, Value, Div, RefSet, TradeRefs, SkipRefs, QueueRefs;
    if IsRebalance(inp, s) {
      var start := st.(rebalances := st.rebalances + 1);
      assert Accounted(start, s + 1, |inp.calendar|) == Accounted(st, s + 1, |inp.calendar|);
      hide Accounted;
      var ranked, ids := SignalsAt(inp, s), Sorted(st.holdings.Keys);
      var desired := Desired(ranked, inp.configuration.sizingN);
      var selling := Selling(st.holdings, ranked, desired);
      assert selling * Elements(ids) == selling;
      SalesAccount(inp, start, ids, selling, s);
      var sold := PlanSales(inp, start, ids, selling, s);
      assert UniqueRanking(SignalsAt(inp, s));
      EntriesAccount(inp, sold, ranked, selling, desired, Target(inp, st.cash, Value(inp, st.holdings, s)), s);
      assert selling + (Considered(ranked) - selling) == Considered(ranked);
      RefSetUnion(selling, Considered(ranked) - selling, s);
      PlusAssociates(Accounted(start, s + 1, |inp.calendar|), RefSet(selling, s),
        RefSet(Considered(ranked) - selling, s));
      PlanSalesSound(inp, start, ids, selling, s);
    }
  }

  /** At every point of every run, the outcomes so far together with what is queued
      are exactly the signals considered so far: none lost, none counted twice. */
  lemma {:induction false} OutcomesAccount(inp: Inputs, capital: Dec, k: nat)
    requires ValidInputs(inp) && UniqueRankings(inp) && k <= |inp.calendar|
    ensures Accounted(Run(inp, capital, k), k, |inp.calendar|) == ConsideredBefore(inp, k)
  {
    hide Step, ValidInputs, UniqueRankings, Sound, RefSet, IsRebalance, QueueRefs;
    if k == 0 {
      QueueEmpty(map[], 0, |inp.calendar|);
    } else {
      OutcomesAccount(inp, capital, k - 1);
      hide Accounted;
      StepAccounts(inp, Run(inp, capital, k - 1), k - 1);
    }
  }

  lemma StepAccounts(inp: Inputs, st: State, s: Session)
    requires ValidInputs(inp) && UniqueRankings(inp) && Sound(inp, st, s) && s < |inp.calendar|
    ensures Accounted(Step(inp, st, s), s + 1, |inp.calendar|)
         == Accounted(st, s, |inp.calendar|)
            + (if IsRebalance(inp, s) then RefSet(Considered(SignalsAt(inp, s)), s) else multiset{})
  {
    hide Rebalanced, ExecuteDue, TradeRefs, SkipRefs, QueueRefs, Value, IsRebalance, RefSet, UniqueRankings,
      ValidInputs;
    ExecuteDueAccounts(inp, st, s);
    ExecuteDueSound(inp, st, s);
    var executed := ExecuteDue(inp, st, s);
    var recorded := Record(inp, executed, s);
    RebalancedAccounts(inp, recorded, s);
    assert Accounted(recorded, s + 1, |inp.calendar|) == Accounted(executed, s + 1, |inp.calendar|);
  }

  lemma ExecuteDueSound(inp: Inputs, st: State, s: Session)
    requires ValidInputs(inp) && Sound(inp, st, s) && s < |inp.calendar|
    ensures Sound(inp, ExecuteDue(inp, st, s), s + 1)
  {
    ExecuteAllSound(inp, st, Due(st.queue, s), s);
  }

  /** A considered signal is counted once, and nothing else is counted. */
  lemma {:induction false} ConsideredOnce(inp: Inputs, k: nat, id: Id, s: Session)
    requires k <= |inp.calendar|
    ensures ConsideredBefore(inp, k)[(id, s)]
         == if s < k && IsRebalance(inp, s) && id in Considered(SignalsAt(inp, s)) then 1 else 0
  {
    hide IsRebalance, Considered;
    if k > 0 {
      ConsideredOnce(inp, k - 1, id, s);
      var ids := Considered(SignalsAt(inp, k - 1));
      assert (id, s) in (set x | x in ids :: (x, k - 1)) <==> id in ids && s == k - 1;
    }
  }

  /** One outcome per signal: when the calendar ends the queue is empty, and every
      signal considered on a rebalance session has exactly one trade or one skip,
      and nothing else has any. */
  lemma EveryOutcomeOnce(inp: Inputs, capital: Dec, id: Id, s: Session)
    requires ValidInputs(inp) && UniqueRankings(inp)
    ensures var st := Run(inp, capital, |inp.calendar|);
            && st.queue == map[]
            && TradeRefs(st.trades)[(id, s)] + SkipRefs(st.skips)[(id, s)]
               == if s < |inp.calendar| && IsRebalance(inp, s) && id in Considered(SignalsAt(inp, s)) then 1 else 0
  {
    hide Run, IsRebalance, Considered;
    OutcomesAccount(inp, capital, |inp.calendar|);
    ConsideredOnce(inp, |inp.calendar|, id, s);
    var st := Run(inp, capital, |inp.calendar|);
    assert Sound(inp, st, |inp.calendar|);
    assert forall c :: c !in st.queue;
  }

  // ---- The same fact as a count ---------------------------------------------------------------

  lemma {:induction false} TradeCount(trades: seq<Trade>)
    ensures |TradeRefs(trades)| == |trades|
  {
    if trades != [] { TradeCount(trades[..|trades| - 1]); }
  }

  lemma {:induction false} SkipCount(skips: seq<Skip>)
    ensures |SkipRefs(skips)| == |skips|
  {
    if skips != [] { SkipCount(skips[..|skips| - 1]); }
  }

  function QueuedCount(queue: map<Session, seq<Pending>>, from: nat, to: nat): nat
    requires from <= to
    decreases if from < to then to - from else 0
  {
    if from == to then 0 else |Due(queue, from)| + QueuedCount(queue, from + 1, to)
  }

  lemma {:induction false} ItemCount(items: seq<Pending>)
    ensures |ItemRefs(items)| == |items|
  {
    if items != [] { ItemCount(items[..|items| - 1]); }
  }

  lemma {:induction false} QueueCount(queue: map<Session, seq<Pending>>, from: nat, to: nat)
    requires from <= to
    ensures |QueueRefs(queue, from, to)| == QueuedCount(queue, from, to)
    decreases if from < to then to - from else 0
  {
    if from < to {
      ItemCount(Due(queue, from));
      QueueCount(queue, from + 1, to);
    }
  }

  function ConsideredCount(inp: Inputs, k: nat): nat
    requires k <= |inp.calendar|
  {
    if k == 0 then 0
    else ConsideredCount(inp, k - 1) + (if IsRebalance(inp, k - 1) then |SignalsAt(inp, k - 1)| else 0)
  }

  lemma {:induction false} RankingSize(ranked: seq<Signal>, s: Session)
    requires UniqueRanking(ranked)
    ensures |RefSet(Considered(ranked), s)| == |ranked|
    decreases |ranked|
  {
    if ranked == [] {
      assert Considered(ranked) == {};
    } else {
      var last := |ranked| - 1;
      RankingSize(ranked[..last], s);
      assert Considered(ranked) == Considered(ranked[..last]) + {ranked[last].instrument};
      RefSetAdd(Considered(ranked[..last]), ranked[last].instrument, s);
    }
  }

  lemma {:induction false} ConsideredSize(inp: Inputs, k: nat)
    requires k <= |inp.calendar| && UniqueRankings(inp)
    ensures |ConsideredBefore(inp, k)| == ConsideredCount(inp, k)
  {
    hide IsRebalance, Considered, RefSet;
    if k > 0 {
      ConsideredSize(inp, k - 1);
      assert UniqueRanking(SignalsAt(inp, k - 1));
      RankingSize(SignalsAt(inp, k - 1), k - 1);
    }
  }

  /** Trades, skips and queued executions together number the ranked entries of the
      rebalance sessions so far. */
  lemma OutcomesCount(inp: Inputs, capital: Dec, k: nat)
    requires ValidInputs(inp) && UniqueRankings(inp) && k <= |inp.calendar|
    ensures var st := Run(inp, capital, k);
            |st.trades| + |st.skips| + QueuedCount(st.queue, k, |inp.calendar|) == ConsideredCount(inp, k)
  {
    hide Run;
    var st := Run(inp, capital, k);
    OutcomesAccount(inp, capital, k);
    TradeCount(st.trades);
    SkipCount(st.skips);
    QueueCount(st.queue, k, |inp.calendar|);
    ConsideredSize(inp, k);
  }
}

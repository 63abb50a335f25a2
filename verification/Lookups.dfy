/** What the engine's lookups mean, said without searching. */
module Lookups {
  import opened Prelude
  import opened Decimal
  import opened Costs
  import opened BacktestModel
  import NoLookahead
  import Outcomes

  /** The next traded session is the least one later, if there is a later session at all and
      it lies within the give-up window. */
  lemma NextTradedMeans(inp: Inputs, m: Instrument, after: Session, c: Session)
    requires ValidInstrument(m, |inp.calendar|)
    ensures NextTradedSession(inp, m, after) == At(c)
       <==> && after + 1 < |inp.calendar| && c in m.traded && c > after && c - after <= inp.configuration.giveUpSessions
            && forall t :: t in m.traded && t > after ==> c <= t
  {
    var found := FirstAfter(m.traded, after);
    if found < |m.traded| {
      assert m.traded[found] in m.traded;
      forall t | t in m.traded && t > after
        ensures m.traded[found] <= t
      {
        NoLookahead.FirstIsLeast(m.traded, after, t);
      }
    } else if c in m.traded && c > after {
      NoLookahead.FirstIsLeast(m.traded, after, c);
    }
  }

  /** The entry before the first later one is the greatest at or before a session. */
  lemma GreatestBy(traded: seq<Session>, s: Session, t: Session)
    requires Ascending(traded) && t in traded
    ensures var found := FirstAfter(traded, s);
            && ((found > 0 && traded[found - 1] == t) <==> t <= s && forall u :: u in traded && u <= s ==> u <= t)
            && (found > 0 ==> traded[found - 1] in traded && traded[found - 1] <= s)
  {
    var found := FirstAfter(traded, s);
    if found > 0 {
      assert traded[found - 1] in traded;
      forall u | u in traded && u <= s ensures u <= traded[found - 1] { NoLookahead.LastIsGreatest(traded, s, u); }
    } else if t <= s {
      NoLookahead.LastIsGreatest(traded, s, t);
    }
  }

  /** The price of a session is its own close, or that of the greatest earlier traded session
      within the give-up window. */
  lemma PriceAsOfMeans(inp: Inputs, m: Instrument, s: Session, t: Session)
    requires ValidInstrument(m, |inp.calendar|) && t in m.traded
    ensures PriceAsOf(inp, m, s) == Some((m.closes[t], t))
       <==> && t <= s && (t == s || s - t <= inp.configuration.giveUpSessions)
            && forall u :: u in m.traded && u <= s ==> u <= t
    ensures PriceAsOf(inp, m, s).Some? ==> PriceAsOf(inp, m, s).value.1 in m.traded
  {
    hide FirstAfter;
    GreatestBy(m.traded, s, t);
  }

  /** The session a holding is priced at: its greatest traded one so far, if within the give-up window. */
  ghost predicate IsPriced(inp: Inputs, m: Instrument, s: Session, t: Session) {
    && t in m.traded && t <= s && (t == s || s - t <= inp.configuration.giveUpSessions)
    && forall u :: u in m.traded && u <= s ==> u <= t
  }

  ghost predicate HasRate(inp: Inputs, currency: string, t: Session) {
    currency == inp.configuration.accountingCurrency || (currency in inp.rates && t in inp.rates[currency])
  }

  /** The value of a holding at a price: the product, and across currencies its quotient by the
      rate, each rounded half to even at the twelfth place. */
  ghost predicate IsValue(inp: Inputs, m: Instrument, quantity: Dec, t: Session, value: Dec)
    requires ValidInputs(inp) && ValidInstrument(m, |inp.calendar|) && t in m.traded && HasRate(inp, m.currency, t)
  {
    exists listing :: IsHalfEven(m.closes[t] * quantity, SCALE, listing)
      && if m.currency == inp.configuration.accountingCurrency then value == listing
         else IsHalfEven(listing * SCALE, inp.rates[m.currency][t], value)
  }

  /** A holding is valued exactly when a session prices it and has a rate, at that session's close
      and the value so rounded; without a price or without a rate it says which. */
  lemma MarkMeans(inp: Inputs, m: Instrument, quantity: Dec, s: Session)
    requires ValidInputs(inp) && ValidInstrument(m, |inp.calendar|)
    ensures var mark := MarkOf(inp, m, quantity, s);
            && (mark.Valued? <==> exists t :: IsPriced(inp, m, s, t) && HasRate(inp, m.currency, t))
            && (mark == Unvalued(PositionNoPrice) <==> forall t :: !IsPriced(inp, m, s, t))
            && (mark.Valued? ==>
                  && IsPriced(inp, m, s, mark.priceSession) && mark.price == m.closes[mark.priceSession]
                  && HasRate(inp, m.currency, mark.priceSession)
                  && IsValue(inp, m, quantity, mark.priceSession, mark.value))
  {
    hide PriceAsOf, Mul, Div, IsHalfEven, IsPriced;
    var priced := PriceAsOf(inp, m, s);
    PricedMeans(inp, m, s);
    if priced.Some? && Rate(inp, m.currency, priced.value.1).Some? {
      var t := priced.value.1;
      assert t in m.closes by { PriceIsOfSession(inp, m, s); }
      var listing := Mul(m.closes[t], quantity);
      MulDivNearest(m.closes[t], quantity);
      if m.currency != inp.configuration.accountingCurrency {
        MulDivNearest(listing, inp.rates[m.currency][t]);
      }
      assert IsValue(inp, m, quantity, t, ToAccounting(listing, Rate(inp, m.currency, t).value));
    }
  }

  lemma PricedMeans(inp: Inputs, m: Instrument, s: Session)
    requires ValidInstrument(m, |inp.calendar|)
    ensures var priced := PriceAsOf(inp, m, s);
            && (priced.None? ==> forall t :: !IsPriced(inp, m, s, t))
            && (priced.Some? ==> var (price, t) := priced.value;
                                 && IsPriced(inp, m, s, t) && price == m.closes[t]
                                 && forall u :: IsPriced(inp, m, s, u) ==> u == t)
  {
    hide FirstAfter;
    var priced := PriceAsOf(inp, m, s);
    forall t | t in m.traded
      ensures priced == Some((m.closes[t], t)) <==> IsPriced(inp, m, s, t)
    {
      PriceAsOfMeans(inp, m, s, t);
    }
    if priced.Some? {
      PriceIsOfSession(inp, m, s);
    }
  }

  lemma PriceIsOfSession(inp: Inputs, m: Instrument, s: Session)
    requires ValidInstrument(m, |inp.calendar|) && PriceAsOf(inp, m, s).Some?
    ensures var (price, t) := PriceAsOf(inp, m, s).value; t in m.traded && price == m.closes[t]
  {
    var found := FirstAfter(m.traded, s);
    if found > 0 { assert m.traded[found - 1] in m.traded; }
  }

  /** The scored entries among the first i. */
  function ScoredBefore(ranked: seq<Signal>, i: nat): nat
    requires i <= |ranked|
  {
    if i == 0 then 0 else ScoredBefore(ranked, i - 1) + if ranked[i - 1].scored then 1 else 0
  }

  lemma {:induction false} ScoredPrefix(ranked: seq<Signal>, k: nat, i: nat)
    requires i <= k <= |ranked|
    ensures ScoredBefore(ranked[..k], i) == ScoredBefore(ranked, i)
  {
    if i > 0 { ScoredPrefix(ranked, k, i - 1); }
  }

  lemma {:induction false} DesiredRanked(ranked: seq<Signal>, n: nat)
    ensures forall id :: id in Desired(ranked, n) ==> exists j :: 0 <= j < |ranked| && ranked[j].instrument == id
  {
    if ranked != [] {
      var last := |ranked| - 1;
      DesiredRanked(ranked[..last], n);
      forall id | id in Desired(ranked, n) ensures exists j :: 0 <= j < |ranked| && ranked[j].instrument == id {
        if id in Desired(ranked[..last], n) {
          var j :| 0 <= j < last && ranked[..last][j].instrument == id;
          assert ranked[j].instrument == id;
        } else {
          assert ranked[last].instrument == id;
        }
      }
    }
  }

  /** What is wanted is exactly the first n scored entries of the ranking. */
  lemma {:induction false} DesiredMeans(ranked: seq<Signal>, n: nat)
    requires Outcomes.UniqueRanking(ranked)
    ensures forall i :: 0 <= i < |ranked| ==>
              (ranked[i].instrument in Desired(ranked, n) <==> ranked[i].scored && ScoredBefore(ranked, i) < n)
    ensures |Desired(ranked, n)| == if ScoredBefore(ranked, |ranked|) < n then ScoredBefore(ranked, |ranked|) else n
  {
    hide ScoredBefore, Outcomes.UniqueRanking;
    if ranked == [] {
      NothingScored();
    } else {
      var last := |ranked| - 1;
      var rest := ranked[..last];
      UniqueRest(ranked);
      DesiredMeans(rest, n);
      DesiredRanked(rest, n);
      ScoredPrefix(ranked, last, last);
      ScoredLast(ranked);
      forall i | 0 <= i < last ensures ScoredBefore(rest, i) == ScoredBefore(ranked, i) && rest[i] == ranked[i] {
        ScoredPrefix(ranked, last, i);
      }
      assert ranked[last].instrument !in Desired(rest, n);
    }
  }

  lemma NothingScored()
    ensures ScoredBefore([], 0) == 0
  {
  }

  lemma ScoredLast(ranked: seq<Signal>)
    requires ranked != []
    ensures ScoredBefore(ranked, |ranked|)
         == ScoredBefore(ranked, |ranked| - 1) + if ranked[|ranked| - 1].scored then 1 else 0
  {
  }

  lemma UniqueRest(ranked: seq<Signal>)
    requires Outcomes.UniqueRanking(ranked) && ranked != []
    ensures Outcomes.UniqueRanking(ranked[..|ranked| - 1])
    ensures forall x :: x in ranked[..|ranked| - 1] ==> x.instrument != ranked[|ranked| - 1].instrument
  {
  }
}

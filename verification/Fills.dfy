/** What one queued decision becomes when it falls due, said from the inputs, the cash and the
    book: the price it fills at, what it costs, how many shares, and why it is refused. */
module Fills {
  import opened Prelude
  import opened Decimal
  import opened Costs
  import opened Sizing
  import opened BacktestModel

  /** The conversion of a currency at a session: none within the accounting currency, else the
      rate stored for that very session. */
  ghost predicate IsConversion(inp: Inputs, currency: string, c: Session, conversion: Conversion) {
    if currency == inp.configuration.accountingCurrency then conversion == Same
    else currency in inp.rates && c in inp.rates[currency] && conversion == Across(inp.rates[currency][c])
  }

  // ---- How many shares ------------------------------------------------------------------------

  function Spendable(cash: Dec, budget: Dec): Dec {
    if cash < budget then cash else budget
  }

  /** An amount affords so many whole shares by the estimate. */
  ghost predicate Affords(model: Model, amount: Dec, price: Dec, conversion: Conversion, shares: nat)
    requires conversion.Usable()
  {
    PerShare(model, price, conversion) > 0 && amount >= LeastBudget(model, price, conversion, shares)
  }

  /** So many whole shares can be bought: what may be spent affords them by the estimate, and the
      cash covers them at their cost. */
  ghost predicate Buyable(model: Model, cash: Dec, budget: Dec, price: Dec, conversion: Conversion, shares: nat)
    requires conversion.Usable()
  {
    && Affords(model, Spendable(cash, budget), price, conversion, shares)
    && cash + Price(model, Buy, FromInt(shares), price, conversion).cashEffect >= 0
  }

  /** The most of them. */
  ghost predicate IsMost(model: Model, cash: Dec, budget: Dec, price: Dec, conversion: Conversion, shares: nat)
    requires conversion.Usable()
  {
    && (shares > 0 ==> Buyable(model, cash, budget, price, conversion, shares))
    && forall more: nat :: more > shares ==> !Buyable(model, cash, budget, price, conversion, more)
  }

  /** The loop that gives shares back passes over none that the cash covers. */
  lemma {:induction false} TrimPassesOver(model: Model, cash: Dec, shares: nat, price: Dec, c: Conversion)
    returns (kept: nat)
    requires c.Usable()
    ensures TrimToCash(model, cash, FromInt(shares), price, c) == FromInt(kept) && kept <= shares
    ensures forall more: nat :: kept < more <= shares ==>
              cash + Price(model, Buy, FromInt(more), price, c).cashEffect < 0
  {
    hide Price;
    kept := shares;
    if shares > 0 && cash + Price(model, Buy, FromInt(shares), price, c).cashEffect < 0 {
      assert FromInt(shares) - ONE == FromInt(shares - 1);
      kept := TrimPassesOver(model, cash, shares - 1, price, c);
    }
  }

  lemma EstimateIsMost(model: Model, budget: Dec, price: Dec, c: Conversion, shares: nat, n: nat)
    requires c.Usable() && AffordableQuantity(model, budget, price, c) == FromInt(shares) && n > 0
    ensures n <= shares <==> Affords(model, budget, price, c, n)
  {
    hide PerShare, LeastBudget, Div, Floor;
    WholeShares(shares, n);
    NoSharesIsNothing();
    if PerShare(model, price, c) > 0 {
      hide AffordableQuantity;
      AffordsFrom(model, budget, price, c, n);
    }
  }

  /** What is bought is the most that can be. */
  lemma BoughtIsMost(model: Model, cash: Dec, budget: Dec, price: Dec, c: Conversion)
    requires c.Usable()
    ensures exists shares: nat ::
              && IsMost(model, cash, budget, price, c, shares)
              && TrimToCash(model, cash, AffordableQuantity(model, Spendable(cash, budget), price, c), price, c)
                 == FromInt(shares)
              && (AffordableQuantity(model, Spendable(cash, budget), price, c) == 0 ==> shares == 0)
  {
    hide Price, AffordableQuantity, Affords, TrimToCash;
    var estimate := AffordableQuantity(model, Spendable(cash, budget), price, c);
    var n: nat := estimate / SCALE;
    assert estimate == FromInt(n);
    forall more: nat | more > 0 ensures more <= n <==> Affords(model, Spendable(cash, budget), price, c, more) {
      EstimateIsMost(model, Spendable(cash, budget), price, c, n, more);
    }
    var kept := TrimPassesOver(model, cash, n, price, c);
    TrimCovers(model, cash, FromInt(n), price, c);
    NoSharesIsNothing();
    if kept > 0 { assert Buyable(model, cash, budget, price, c, kept); }
    forall more: nat | more > kept ensures !Buyable(model, cash, budget, price, c, more) { }
    assert IsMost(model, cash, budget, price, c, kept);
  }

  // ---- Filled or refused ----------------------------------------------------------------------

  /** A filled decision: at that session's open and conversion; all that is held, or the most
      whole shares, at least one, that what is decided and what is there can buy. */
  ghost predicate IsFill(inp: Inputs, cash: Dec, book: map<Id, Dec>, id: Id, direction: Direction, budget: Dec,
                         c: Session, quantity: Dec, price: Dec, conversion: Conversion)
    requires id in inp.members
  {
    var m := inp.members[id];
    && c in m.opens && price == m.opens[c] && conversion.Usable() && IsConversion(inp, m.currency, c, conversion)
    && match direction
       case Sell => id in book && quantity == book[id]
       case Buy =>
         exists shares: nat :: shares > 0 && quantity == FromInt(shares)
                               && IsMost(inp.configuration.costs, cash, budget, price, conversion, shares)
  }

  /** A refused one. */
  ghost predicate IsRefusal(inp: Inputs, cash: Dec, book: set<Id>, id: Id, direction: Direction, budget: Dec,
                            c: Session, reason: SkipReason)
    requires id in inp.members
  {
    var m := inp.members[id];
    match reason
    case NoPrice => c !in m.opens
    case NoRate => c in m.opens && forall conversion :: !IsConversion(inp, m.currency, c, conversion)
    case NotSelected => c in m.opens && direction == Sell && id !in book
    case NoCash =>
      c in m.opens && direction == Buy
      && exists conversion: Conversion :: conversion.Usable() && IsConversion(inp, m.currency, c, conversion)
           && IsMost(inp.configuration.costs, cash, budget, m.opens[c], conversion, 0)
    case AlreadyHeld => false
    case NotExecutable => false
    case NoNextSession => false
  }

  /** The quantities of a book. */
  function Quantities(holdings: map<Id, Holding>): map<Id, Dec> {
    map id | id in holdings :: holdings[id].quantity
  }

  lemma RateMeans(inp: Inputs, currency: string, c: Session)
    requires ValidInputs(inp)
    ensures var rated := Rate(inp, currency, c);
            if rated.Some? then rated.value.Usable() && IsConversion(inp, currency, c, rated.value)
            else forall conversion :: !IsConversion(inp, currency, c, conversion)
  {
  }

  lemma DecideMeans(inp: Inputs, cash: Dec, holdings: map<Id, Holding>, item: Pending, c: Session)
    requires ValidInputs(inp) && item.instrument in inp.members
    ensures match Decide(inp, cash, holdings, item, c)
            case Fill(quantity, price, conversion) =>
              IsFill(inp, cash, Quantities(holdings), item.instrument, item.direction, item.budget, c,
                     quantity, price, conversion)
            case Refuse(reason) =>
              IsRefusal(inp, cash, holdings.Keys, item.instrument, item.direction, item.budget, c, reason)
  {
    hide AffordableQuantity, TrimToCash, Rate, IsConversion, ValidInputs, IsMost;
    var m := inp.members[item.instrument];
    RateMeans(inp, m.currency, c);
    if c in m.opens && Rate(inp, m.currency, c).Some? && item.direction == Buy {
      var conversion := Rate(inp, m.currency, c).value;
      BoughtIsMost(inp.configuration.costs, cash, item.budget, m.opens[c], conversion);
      NoSharesIsNothing();
    }
  }

  lemma NoSharesIsNothing()
    ensures FromInt(0) == 0 && forall shares: nat :: shares > 0 <==> FromInt(shares) > 0
  {
  }
}

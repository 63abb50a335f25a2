/** What one execution costs and what it does to cash. */
module Costs {
  import opened Decimal

  datatype Direction = Buy | Sell

  /** Stated rates, already turned from basis points into factors, plus the
      one amount: the brokerage minimum. */
  datatype Model = Model(slippage: Dec, spread: Dec, brokerageRate: Dec, brokerageMinimum: Dec)
  {
    predicate NonNegative() {
      slippage >= 0 && spread >= 0 && brokerageRate >= 0 && brokerageMinimum >= 0
    }
  }

  /** The model of figures stated in basis points, except the minimum, which is an amount. */
  function FromBasisPoints(slippage: Dec, spread: Dec, brokerage: Dec, brokerageMinimum: Dec): Model {
    Model(BasisPoints(slippage), BasisPoints(spread), BasisPoints(brokerage), brokerageMinimum)
  }

  /** Each rate is a ten-thousandth of its figure, rounded half to even at the twelfth place. */
  lemma BasisPointsMean(slippage: Dec, spread: Dec, brokerage: Dec, brokerageMinimum: Dec)
    ensures var model := FromBasisPoints(slippage, spread, brokerage, brokerageMinimum);
            && IsHalfEven(slippage, 10_000, model.slippage) && IsHalfEven(spread, 10_000, model.spread)
            && IsHalfEven(brokerage, 10_000, model.brokerageRate) && model.brokerageMinimum == brokerageMinimum
  {
    TenThousandth(slippage);
    TenThousandth(spread);
    TenThousandth(brokerage);
    hide BasisPoints;
  }

  lemma TenThousandth(v: Dec)
    ensures IsHalfEven(v, 10_000, BasisPoints(v))
  {
    hide HalfEven;
    HalfEvenIsNearest(v * SCALE, FromInt(10_000));
    var q := BasisPoints(v);
    assert v * SCALE - q * FromInt(10_000) == (v - q * 10_000) * SCALE;
  }

  datatype Execution = Execution(gross: Dec, slippage: Dec, spread: Dec, brokerage: Dec, cashEffect: Dec)
  {
    function Total(): Dec {
      slippage + spread + brokerage
    }
  }

  /** A rate to divide by when two currencies meet, and none when they do not. */
  datatype Conversion = Same | Across(rate: Dec)
  {
    predicate Usable() {
      Across? ==> rate > 0
    }
  }

  function ToAccounting(amount: Dec, conversion: Conversion): Dec
    requires conversion.Usable()
  {
    match conversion
    case Same => amount
    case Across(rate) => Div(amount, rate)
  }

  function Price(model: Model, direction: Direction, quantity: Dec, price: Dec, conversion: Conversion): Execution
    requires conversion.Usable()
  {
    var grossListing := Mul(price, quantity);
    var slippageListing := Mul(grossListing, model.slippage);
    var gross := ToAccounting(grossListing, conversion);
    var slippage := ToAccounting(slippageListing, conversion);
    var crossed := if direction == Sell then gross - slippage else gross + slippage;
    var spread := if conversion.Across? then Mul(crossed, model.spread) else 0;
    var brokerage := Max(Mul(gross, model.brokerageRate), model.brokerageMinimum);
    var cashEffect :=
      if direction == Buy then -(gross + slippage + spread + brokerage)
      else gross - slippage - spread - brokerage;
    Execution(gross, slippage, spread, brokerage, cashEffect)
  }

  /** An amount in the accounting currency: itself, or its half-even quotient by the rate. */
  ghost predicate IsConverted(amount: Dec, conversion: Conversion, r: Dec)
    requires conversion.Usable()
  {
    if conversion.Same? then r == amount else IsHalfEven(amount * SCALE, conversion.rate, r)
  }

  /** The consideration and its slippage are rounded in the listing currency and then converted;
      the spread is of the slipped consideration, and only across currencies; the brokerage is
      the rate's share of the consideration or the minimum, whichever is more; and cash moves by
      the consideration and all three, on the side the direction puts them. */
  ghost predicate IsPricing(model: Model, direction: Direction, quantity: Dec, price: Dec, conversion: Conversion,
                            e: Execution)
    requires conversion.Usable()
  {
    && e.cashEffect == (if direction == Buy then -e.gross - e.Total() else e.gross - e.Total())
    && exists listing, slipped, share ::
         && IsHalfEven(price * quantity, SCALE, listing) && IsConverted(listing, conversion, e.gross)
         && IsHalfEven(listing * model.slippage, SCALE, slipped) && IsConverted(slipped, conversion, e.slippage)
         && (if conversion.Same? then e.spread == 0
             else
               var crossed := if direction == Sell then e.gross - e.slippage else e.gross + e.slippage;
               IsHalfEven(crossed * model.spread, SCALE, e.spread))
         && IsHalfEven(e.gross * model.brokerageRate, SCALE, share)
         && e.brokerage >= share && e.brokerage >= model.brokerageMinimum
         && (e.brokerage == share || e.brokerage == model.brokerageMinimum)
  }

  lemma PriceMeans(model: Model, direction: Direction, quantity: Dec, price: Dec, conversion: Conversion)
    requires conversion.Usable()
    ensures IsPricing(model, direction, quantity, price, conversion,
                      Price(model, direction, quantity, price, conversion))
  {
    hide IsHalfEven, Mul, Div;
    var e := Price(model, direction, quantity, price, conversion);
    var listing := Mul(price, quantity);
    var slipped := Mul(listing, model.slippage);
    MulDivNearest(price, quantity);
    MulDivNearest(listing, model.slippage);
    if conversion.Across? {
      MulDivNearest(listing, conversion.rate);
      MulDivNearest(slipped, conversion.rate);
      MulDivNearest(if direction == Sell then e.gross - e.slippage else e.gross + e.slippage, model.spread);
    }
    MulDivNearest(e.gross, model.brokerageRate);
    var share := Mul(e.gross, model.brokerageRate);
    assert IsHalfEven(price * quantity, SCALE, listing) && IsHalfEven(listing * model.slippage, SCALE, slipped)
        && IsHalfEven(e.gross * model.brokerageRate, SCALE, share);
  }

  /** The stored figures reconcile exactly: cash moves by the consideration and
      every cost, on the side the direction puts them, and by nothing else. */
  lemma CashReconciles(model: Model, direction: Direction, quantity: Dec, price: Dec, conversion: Conversion)
    requires conversion.Usable()
    ensures var e := Price(model, direction, quantity, price, conversion);
            e.cashEffect == (if direction == Buy then -e.gross - e.Total() else e.gross - e.Total())
  {
  }

  /** A sale takes cash exactly when its costs exceed its consideration. */
  lemma SaleTakesCash(model: Model, quantity: Dec, price: Dec, conversion: Conversion)
    requires conversion.Usable()
    ensures var e := Price(model, Sell, quantity, price, conversion);
            e.cashEffect < 0 <==> e.Total() > e.gross
  {
  }

  /** Such a sale exists: one share at 1, no rates, and a minimum of 2. */
  lemma MinimumExceedsProceeds()
    ensures Price(Model(0, 0, 0, 2 * ONE), Sell, ONE, ONE, Same).cashEffect == -ONE
  {
  }

  /** One share's cost in the accounting currency, rounded after every step. */
  function PerShare(model: Model, price: Dec, conversion: Conversion): Dec
    requires conversion.Usable()
  {
    var slipped := price + Mul(price, model.slippage);
    var converted := ToAccounting(slipped, conversion);
    var spreadIn := if conversion.Across? then converted + Mul(converted, model.spread) else converted;
    spreadIn + Mul(spreadIn, model.brokerageRate)
  }

  /** An amount and its half-even rounded share of itself. */
  ghost predicate IsGrown(amount: Dec, rate: Dec, r: Dec) {
    IsHalfEven(amount * rate, SCALE, r - amount)
  }

  /** One share's price with its slippage, converted, with the spread of that across currencies,
      and with the brokerage of what it comes to, each rounded for itself. */
  ghost predicate IsPerShare(model: Model, price: Dec, conversion: Conversion, d: Dec)
    requires conversion.Usable()
  {
    exists slipped, converted, crossed ::
      && IsGrown(price, model.slippage, slipped) && IsConverted(slipped, conversion, converted)
      && (if conversion.Same? then crossed == converted else IsGrown(converted, model.spread, crossed))
      && IsGrown(crossed, model.brokerageRate, d)
  }

  lemma PerShareMeans(model: Model, price: Dec, conversion: Conversion)
    requires conversion.Usable()
    ensures IsPerShare(model, price, conversion, PerShare(model, price, conversion))
  {
    hide IsHalfEven, Mul, Div;
    var slipped := price + Mul(price, model.slippage);
    var converted := ToAccounting(slipped, conversion);
    var crossed := if conversion.Across? then converted + Mul(converted, model.spread) else converted;
    MulDivNearest(price, model.slippage);
    if conversion.Across? { MulDivNearest(slipped, conversion.rate); }
    MulDivNearest(converted, model.spread);
    MulDivNearest(crossed, model.brokerageRate);
    assert IsGrown(price, model.slippage, slipped) && IsConverted(slipped, conversion, converted);
    assert IsGrown(crossed, model.brokerageRate, PerShare(model, price, conversion));
  }

  /** How many whole shares a budget buys, estimated from one share's cost. */
  function AffordableQuantity(model: Model, budget: Dec, price: Dec, conversion: Conversion): (q: Dec)
    requires conversion.Usable()
    ensures q >= 0 && q % SCALE == 0
  {
    var perShare := PerShare(model, price, conversion);
    var available := budget - model.brokerageMinimum;
    if perShare <= 0 || available <= 0 then 0
    else
      HalfEvenSign(available * SCALE, perShare);
      FromInt(Floor(Div(available, perShare)))
  }
}

/** How far the cost of the shares a budget "affords" can exceed that budget.
    All figures are in units of the twelfth place. */
module Sizing {
  import opened Decimal
  import opened Costs

  ghost function Factor(x: Dec): real {
    x as real / SCALE as real
  }

  /** The exact multiplier a conversion stands for. */
  ghost function Multiplier(c: Conversion): real
    requires c.Usable()
  {
    if c.Across? then SCALE as real / c.rate as real else 1.0
  }

  /** Half a unit where a conversion rounds, nothing where there is none. */
  ghost function Half(c: Conversion): real {
    if c.Across? then 0.5 else 0.0
  }

  ghost function SpreadFactor(model: Model, c: Conversion): real {
    if c.Across? then Factor(model.spread) else 0.0
  }

  /** What the spread and the brokerage rate multiply a consideration by. */
  ghost function WeightOf(phi: real, beta: real): real {
    (1.0 + beta) * (1.0 + phi)
  }

  ghost function PerShareLossOf(k: real, h: real, phi: real, beta: real): real {
    (1.0 + beta) * ((1.0 + phi) * (k / 2.0 + h) + h) + 0.5
  }

  ghost function OrderLossOf(k: real, h: real, phi: real, beta: real): real {
    WeightOf(phi, beta) * (k / 2.0 + 2.0 * h) + h + 0.5
  }

  /** What rounding one share's estimate can lose. */
  ghost function PerShareLoss(model: Model, c: Conversion): real
    requires c.Usable()
  {
    PerShareLossOf(Multiplier(c), Half(c), SpreadFactor(model, c), Factor(model.brokerageRate))
  }

  /** What rounding the order's own costs can add. */
  ghost function OrderLoss(model: Model, c: Conversion): real
    requires c.Usable()
  {
    OrderLossOf(Multiplier(c), Half(c), SpreadFactor(model, c), Factor(model.brokerageRate))
  }

  ghost function Weight(model: Model, c: Conversion): real {
    WeightOf(SpreadFactor(model, c), Factor(model.brokerageRate))
  }

  /** One share slipped and converted, with nothing rounded. */
  ghost function ExactShare(model: Model, price: Dec, c: Conversion): real
    requires c.Usable()
  {
    Scaled(price as real, Factor(model.slippage)) * Multiplier(c)
  }

  ghost function Scaled(x: real, f: real): real {
    x * (1.0 + f)
  }

  /** Linear in the number of shares, plus half a share's cost in units. */
  ghost function RoundingBound(model: Model, price: Dec, c: Conversion, shares: nat): real
    requires c.Usable()
  {
    OrderLoss(model, c) + shares as real * PerShareLoss(model, c)
    + PerShare(model, price, c) as real / (2 * SCALE) as real
  }

  lemma ScaleLe(a: real, b: real, k: real)
    requires a <= b && k >= 0.0
    ensures a * k <= b * k
  {
  }

  lemma ScaleLt(a: real, b: real, k: real)
    requires a < b && k > 0.0
    ensures a * k < b * k
  {
  }

  lemma CastProduct(a: int, b: int)
    ensures (a * b) as real == a as real * b as real
  {
  }

  lemma QuotientNear(n: real, d: real, q: real, x: real)
    requires d > 0.0 && n == q * d + x && -d <= 2.0 * x <= d
    ensures n / d - 0.5 <= q <= n / d + 0.5
  {
    var r := n / d;
    assert r * d == n;
    var e := r - q;
    assert e * d == x;
    if e > 0.5 { ScaleLt(0.5, e, d); }
    if e < -0.5 { ScaleLt(e, -0.5, d); }
  }

  /** A rounded quotient is within half a unit of the exact one. */
  lemma HalfEvenNear(n: int, d: int)
    requires d > 0
    ensures var exact := n as real / d as real;
            exact - 0.5 <= HalfEven(n, d) as real <= exact + 0.5
  {
    var q := HalfEven(n, d);
    HalfEvenIsNearest(n, d);
    var p := q * d;
    CastProduct(q, d);
    var x := n - p;
    assert n as real == p as real + x as real;
    QuotientNear(n as real, d as real, q as real, x as real);
  }

  lemma MulNear(a: Dec, b: Dec)
    ensures var exact := a as real * Factor(b);
            exact - 0.5 <= Mul(a, b) as real <= exact + 0.5
  {
    HalfEvenNear(a * b, SCALE);
    CastProduct(a, b);
    DivideProduct(a as real, b as real, SCALE as real);
  }

  lemma DivideProduct(x: real, y: real, d: real)
    requires d > 0.0
    ensures x * y / d == x * (y / d)
  {
    var r := y / d;
    assert r * d == y;
    assert x * r * d == x * y;
  }

  lemma ConvertNear(a: Dec, c: Conversion)
    requires c.Usable()
    ensures var exact := a as real * Multiplier(c);
            exact - Half(c) <= ToAccounting(a, c) as real <= exact + Half(c)
  {
    if c.Across? {
      HalfEvenNear(a * SCALE, c.rate);
      CastProduct(a, SCALE);
      DivideProduct(a as real, SCALE as real, c.rate as real);
    }
  }

  lemma MultiplierPositive(c: Conversion)
    requires c.Usable()
    ensures Multiplier(c) > 0.0
  {
    if c.Across? {
      var s, r := SCALE as real, c.rate as real;
      assert s / r * r == s;
      if s / r <= 0.0 { ScaleLe(s / r, 0.0, r); }
    }
  }

  /** A rounded product of two non-negatives is non-negative. */
  lemma MulSign(a: Dec, b: Dec)
    requires a >= 0 && b >= 0
    ensures Mul(a, b) >= 0
  {
    NonNegProduct(a, b);
    HalfEvenSign(a * b, SCALE);
  }

  lemma ConvertSign(a: Dec, c: Conversion)
    requires a >= 0 && c.Usable()
    ensures ToAccounting(a, c) >= 0
  {
    if c.Across? { HalfEvenSign(a * SCALE, c.rate); }
  }

  /** A loss so far is scaled by the next factor, and its rounding added. */
  lemma LossCarries(base: real, lost: real, x: real, factor: real, loss: real, y: real)
    requires factor >= 0.0 && x >= base - lost && y >= x * factor - loss
    ensures y >= base * factor - (lost * factor + loss)
  {
    ScaleLe(base - lost, x, factor);
    assert (base - lost) * factor == base * factor - lost * factor;
  }

  /** Three roundings down, carried through the factors above them. */
  lemma ChainLower(exact: real, k: real, h: real, phi: real, beta: real, a: real, b: real, d: real, p: real)
    requires k >= 0.0 && phi >= 0.0 && beta >= 0.0
    requires a >= exact - 0.5 && b >= a * k - h
    requires d >= Scaled(b, phi) - h && p >= Scaled(d, beta) - 0.5
    ensures p >= WeightOf(phi, beta) * (exact * k) - PerShareLossOf(k, h, phi, beta)
  {
    var u, v, base, lost := 1.0 + phi, 1.0 + beta, exact * k, 0.5 * k + h;
    LossCarries(exact, 0.5, a, k, h, b);
    LossCarries(base, lost, b, u, h, d);
    LossCarries(base * u, lost * u + h, d, v, 0.5, p);
    assert base * u * v == (v * u) * base;
    assert (lost * u + h) * v == v * (u * lost + h);
  }

  /** Three roundings up; g is the consideration, s the slippage, x the spread, b the brokerage. */
  lemma ChainUpper(exact: real, extra: real, phi: real, beta: real, h: real,
                   g: real, s: real, x: real, b: real, beside: real)
    requires phi >= 0.0 && beta >= 0.0 && g >= 0.0 && s >= 0.0
    requires g + s <= exact + extra && x <= (g + s) * phi + h
    requires b <= g * beta + 0.5 + beside
    ensures g + s + x + b - beside <= WeightOf(phi, beta) * exact + WeightOf(phi, beta) * extra + h + 0.5
  {
    var total := g + s;
    var crossed := total * (1.0 + phi);
    assert crossed == total + total * phi;
    NonNegReal(total, phi);
    ScaleLe(g, crossed, beta);
    var w := (1.0 + beta) * (1.0 + phi);
    assert crossed + crossed * beta == total * w;
    NonNegReal(beta, phi);
    assert w == 1.0 + beta + phi + beta * phi;
    ScaleLe(total, exact + extra, w);
    assert (exact + extra) * w == w * exact + w * extra;
  }

  lemma NonNegReal(x: real, y: real)
    requires x >= 0.0 && y >= 0.0
    ensures x * y >= 0.0
  {
  }

  lemma FactorSign(x: Dec)
    requires x >= 0
    ensures Factor(x) >= 0.0
  {
  }

  /** Adding a rounded product of itself: within half a unit of the exact scaling. */
  lemma AddNear(x: Dec, f: Dec)
    ensures Scaled(x as real, Factor(f)) - 0.5 <= (x + Mul(x, f)) as real <= Scaled(x as real, Factor(f)) + 0.5
  {
    hide Mul, Factor;
    MulNear(x, f);
    assert Scaled(x as real, Factor(f)) == x as real + x as real * Factor(f);
  }

  /** One share's estimate falls short of its exact cost by at most PerShareLoss. */
  lemma PerShareLower(model: Model, price: Dec, c: Conversion)
    requires c.Usable() && price > 0 && model.NonNegative()
    ensures PerShare(model, price, c) as real
         >= Weight(model, c) * ExactShare(model, price, c) - PerShareLoss(model, c)
  {
    hide Mul, ToAccounting, Factor, Multiplier, WeightOf, PerShareLossOf, Scaled;
    FactorSign(model.spread); FactorSign(model.brokerageRate);
    MultiplierPositive(c);
    AddNear(price, model.slippage);
    var a := price + Mul(price, model.slippage);
    ConvertNear(a, c);
    var b := ToAccounting(a, c);
    AddNear(b, model.spread);
    ScaledByNothing(b as real);
    var d := if c.Across? then b + Mul(b, model.spread) else b;
    AddNear(d, model.brokerageRate);
    var p := d + Mul(d, model.brokerageRate);
    ChainLower(Scaled(price as real, Factor(model.slippage)), Multiplier(c), Half(c), SpreadFactor(model, c),
               Factor(model.brokerageRate), a as real, b as real, d as real, p as real);
  }

  lemma ScaledByNothing(x: real)
    ensures Scaled(x, 0.0) == x
  {
  }

  lemma GrossAndSlippage(model: Model, price: Dec, c: Conversion, shares: nat)
    requires c.Usable() && price > 0 && model.NonNegative()
    ensures var e := Price(model, Buy, FromInt(shares), price, c);
            e.gross >= 0 && e.slippage >= 0
            && (e.gross + e.slippage) as real
               <= shares as real * ExactShare(model, price, c) + (Multiplier(c) / 2.0 + 2.0 * Half(c))
  {
    hide Mul, ToAccounting, Factor, Multiplier, Scaled, FromInt, Half;
    var listing := Mul(price, FromInt(shares));
    assert listing as real == price as real * shares as real && listing >= 0 by {
      MulWhole(price, shares);
      NonNegProduct(price, shares);
      CastProduct(price, shares);
    }
    var slip := Mul(listing, model.slippage);
    MulNear(listing, model.slippage);
    MulSign(listing, model.slippage);
    ConvertNear(listing, c); ConvertSign(listing, c);
    ConvertNear(slip, c); ConvertSign(slip, c);
    MultiplierPositive(c);
    Consideration(price as real, shares as real, Factor(model.slippage), Multiplier(c), listing as real,
                  slip as real, ExactShare(model, price, c));
    hide ExactShare;
    assert (ToAccounting(listing, c) + ToAccounting(slip, c)) as real
        == ToAccounting(listing, c) as real + ToAccounting(slip, c) as real;
  }

  /** The brokerage an order does not pay: it pays the greater of the rate's and the minimum,
      while the estimate set both aside. */
  function Slack(model: Model, price: Dec, c: Conversion, shares: nat): (r: Dec)
    requires c.Usable()
  {
    Lesser(Mul(ToAccounting(Mul(price, FromInt(shares)), c), model.brokerageRate), model.brokerageMinimum)
  }

  function Lesser(a: Dec, b: Dec): Dec {
    if a <= b then a else b
  }

  lemma GreaterAndLesser(a: Dec, b: Dec)
    ensures Max(a, b) == a + b - Lesser(a, b)
  {
  }

  /** The order's costs exceed the exact ones by at most OrderLoss, besides the minimum and
      less the brokerage it does not pay. */
  lemma SpendUpper(model: Model, price: Dec, c: Conversion, shares: nat)
    requires c.Usable() && price > 0 && model.NonNegative()
    ensures (-Price(model, Buy, FromInt(shares), price, c).cashEffect - model.brokerageMinimum) as real
         <= Weight(model, c) * (shares as real * ExactShare(model, price, c)) + OrderLoss(model, c)
            - Slack(model, price, c, shares) as real
  {
    hide Lesser, Max, Mul, ToAccounting, Factor, Multiplier, WeightOf, FromInt, ExactShare;
    FactorSign(model.spread); FactorSign(model.brokerageRate);
    var e := Price(model, Buy, FromInt(shares), price, c);
    GrossAndSlippage(model, price, c, shares);
    MulNear(e.gross + e.slippage, model.spread);
    MulNear(e.gross, model.brokerageRate);
    GreaterAndLesser(Mul(e.gross, model.brokerageRate), model.brokerageMinimum);
    ChainUpper(shares as real * ExactShare(model, price, c),
               Multiplier(c) / 2.0 + 2.0 * Half(c), SpreadFactor(model, c),
               Factor(model.brokerageRate), Half(c), e.gross as real, e.slippage as real, e.spread as real,
               e.brokerage as real, (model.brokerageMinimum - Slack(model, price, c, shares)) as real);
  }

  /** The consideration and its slippage, converted, against the exact figure. */
  lemma Consideration(p: real, n: real, sigma: real, k: real, listing: real, slip: real, share: real)
    requires k >= 0.0 && listing == p * n && share == Scaled(p, sigma) * k
    requires slip <= listing * sigma + 0.5
    ensures listing * k + slip * k <= n * share + k / 2.0
  {
    ScaleLe(slip, listing * sigma + 0.5, k);
    assert (listing * sigma + 0.5) * k == listing * sigma * k + k / 2.0;
    ExactConsideration(p, n, sigma, k);
  }

  lemma ExactConsideration(p: real, n: real, sigma: real, k: real)
    ensures (p * n) * k + (p * n) * sigma * k == n * ((p * (1.0 + sigma)) * k)
  {
    assert p * (1.0 + sigma) == p + p * sigma;
    assert (p + p * sigma) * k == p * k + p * sigma * k;
  }

  /** The sizing bound: the exact spend for the quantity a budget affords exceeds that budget by
      at most the explicit rounding bound, less the brokerage set aside and not paid. */
  lemma SpendWithinBound(model: Model, budget: Dec, price: Dec, c: Conversion, shares: nat)
    requires c.Usable() && price > 0 && model.NonNegative()
    requires shares > 0 && AffordableQuantity(model, budget, price, c) == FromInt(shares)
    ensures -Price(model, Buy, FromInt(shares), price, c).cashEffect as real
         <= budget as real + RoundingBound(model, price, c, shares) - Slack(model, price, c, shares) as real
  {
    hide Slack, Div, PerShareLoss, OrderLoss, Weight, PerShare, ExactShare, Price;
    var d := PerShare(model, price, c);
    EstimateFits(budget - model.brokerageMinimum, d, shares);
    PerShareLower(model, price, c);
    SpendUpper(model, price, c, shares);
    Combine(Weight(model, c), ExactShare(model, price, c), PerShareLoss(model, c), d as real, shares as real);
  }

  /** When the estimate is conservative after all: the brokerage set aside and not paid, which
      can be worked out before the order, is at least the rounding bound. */
  lemma SpendWithinBudget(model: Model, budget: Dec, price: Dec, c: Conversion, shares: nat)
    requires c.Usable() && price > 0 && model.NonNegative()
    requires shares > 0 && AffordableQuantity(model, budget, price, c) == FromInt(shares)
    requires Slack(model, price, c, shares) as real >= RoundingBound(model, price, c, shares)
    ensures -Price(model, Buy, FromInt(shares), price, c).cashEffect <= budget
  {
    hide *;
    SpendWithinBound(model, budget, price, c, shares);
  }

  lemma Combine(w: real, exact: real, loss: real, d: real, n: real)
    requires d >= w * exact - loss && n >= 0.0
    ensures w * (n * exact) <= n * d + n * loss
  {
    ScaleLe(w * exact - loss, d, n);
    assert (w * exact - loss) * n == w * (n * exact) - n * loss;
  }

  /** The estimated cost of the shares bought fits what was available, up to half a unit of one share. */
  lemma EstimateFits(available: Dec, d: Dec, shares: nat)
    requires d > 0 && shares == Floor(Div(available, d))
    ensures shares as real * d as real <= available as real + d as real / (2 * SCALE) as real
  {
    hide HalfEven;
    HalfEvenNear(available * SCALE, d);
    CastProduct(shares, SCALE);
    CastProduct(available, SCALE);
    FitsReal(shares as real, SCALE as real, d as real, available as real);
  }

  lemma FitsReal(n: real, s: real, d: real, a: real)
    requires s > 0.0 && d > 0.0 && n * s <= a * s / d + 0.5
    ensures n * d <= a + d / (2.0 * s)
  {
    var ratio := a * s / d;
    assert ratio * d == a * s;
    ScaleLe(n * s, ratio + 0.5, d);
    assert (ratio + 0.5) * d == ratio * d + 0.5 * d;
    assert n * s * d == (n * d) * s;
    DivideOut(n * d, a, d, s);
  }

  lemma DivideOut(x: real, a: real, d: real, s: real)
    requires s > 0.0 && x * s <= a * s + 0.5 * d
    ensures x <= a + d / (2.0 * s)
  {
    var y := d / (2.0 * s);
    assert y * (2.0 * s) == d;
    var gap := x - a - y;
    assert gap * s == x * s - a * s - y * s;
    if gap > 0.0 { ScaleLt(0.0, gap, s); }
  }

  // ---- Exactly when ---------------------------------------------------------------------------

  /** The least budget whose estimate affords a number of shares: the minimum set aside and their
      estimated cost, less what rounding the quotient up to a whole share forgives. */
  function LeastBudget(model: Model, price: Dec, c: Conversion, shares: nat): Dec
    requires c.Usable()
  {
    model.brokerageMinimum + shares * PerShare(model, price, c) - PerShare(model, price, c) / (2 * SCALE)
  }

  /** A budget affords at least so many shares exactly from that least budget on. */
  lemma AffordsFrom(model: Model, budget: Dec, price: Dec, c: Conversion, shares: nat)
    requires c.Usable() && PerShare(model, price, c) > 0 && shares > 0
    ensures AffordableQuantity(model, budget, price, c) >= FromInt(shares)
            <==> budget >= LeastBudget(model, price, c, shares)
  {
    hide PerShare, Div, Floor;
    var d, available := PerShare(model, price, c), budget - model.brokerageMinimum;
    AtLeastOneShare(shares, d);
    if available > 0 {
      QuotientReaches(available, d, shares);
      WholeShares(Floor(Div(available, d)), shares);
    }
  }

  lemma WholeShares(a: int, b: int)
    ensures FromInt(a) >= FromInt(b) <==> a >= b
  {
  }

  lemma AtLeastOneShare(shares: nat, d: Dec)
    requires shares > 0 && d > 0
    ensures shares * d - d / (2 * SCALE) > 0
  {
    assert shares * d == (shares - 1) * d + d;
    NonNegProduct(shares - 1, d);
  }

  /** The rounded quotient, floored, reaches a whole number from half a unit below it. */
  lemma QuotientReaches(available: Dec, d: Dec, shares: nat)
    requires d > 0
    ensures Floor(Div(available, d)) >= shares <==> available >= shares * d - d / (2 * SCALE)
  {
    hide HalfEven;
    var q := Div(available, d);
    HalfEvenIsNearest(available * SCALE, d);
    assert Floor(q) >= shares <==> q >= shares * SCALE;
    NearestReaches(available * SCALE, d, q, shares * SCALE);
    HalfUnitBelow(available, d, shares);
  }

  /** A tie below an even number is rounded up to it. */
  lemma NearestReaches(n: int, d: int, q: int, even: int)
    requires d > 0 && IsHalfEven(n, d, q) && even % 2 == 0
    ensures q >= even <==> 2 * n >= 2 * (even * d) - d
  {
    if q >= even {
      NonNegProduct(q - even, d);
      assert (q - even) * d == q * d - even * d;
    } else if q == even - 1 {
      assert q * d == even * d - d;
      assert q % 2 == 1;
    } else {
      NonNegProduct(even - 2 - q, d);
      assert (even - 2 - q) * d == even * d - 2 * d - q * d;
    }
  }

  lemma HalfUnitBelow(available: int, d: int, shares: int)
    requires d > 0
    ensures 2 * (available * SCALE) >= 2 * (shares * SCALE * d) - d <==> available >= shares * d - d / (2 * SCALE)
  {
    var cost := shares * d;
    assert shares * SCALE * d == cost * SCALE;
    var gap := cost - available;
    assert gap * (2 * SCALE) == 2 * (cost * SCALE) - 2 * (available * SCALE);
    assert gap * (2 * SCALE) <= d <==> gap <= d / (2 * SCALE);
  }

  /** Every budget that affords a number of shares covers them, if and only if they cost no more
      than the least such budget: a check on the model, the price and the number alone. */
  lemma BudgetIsKeptExactly(model: Model, price: Dec, c: Conversion, shares: nat)
    requires c.Usable() && PerShare(model, price, c) > 0 && shares > 0
    ensures var spend := -Price(model, Buy, FromInt(shares), price, c).cashEffect;
            (forall budget :: AffordableQuantity(model, budget, price, c) == FromInt(shares) ==> spend <= budget)
            <==> spend <= LeastBudget(model, price, c, shares)
  {
    hide PerShare, Price, AffordableQuantity, LeastBudget;
    var spend, least := -Price(model, Buy, FromInt(shares), price, c).cashEffect, LeastBudget(model, price, c, shares);
    forall budget | AffordableQuantity(model, budget, price, c) == FromInt(shares) ensures budget >= least {
      AffordsFrom(model, budget, price, c, shares);
    }
    AffordsFrom(model, least, price, c, shares);
    AffordsFrom(model, least, price, c, shares + 1);
    NextCostsMore(model, price, c, shares);
    assert AffordableQuantity(model, least, price, c) == FromInt(shares);
  }

  lemma NextCostsMore(model: Model, price: Dec, c: Conversion, shares: nat)
    requires c.Usable() && PerShare(model, price, c) > 0
    ensures LeastBudget(model, price, c, shares + 1) > LeastBudget(model, price, c, shares)
  {
    hide PerShare;
    var d := PerShare(model, price, c);
    assert (shares + 1) * d == shares * d + d;
  }

  /** The rounding is real, at a price with no more than eight places and rates and a budget a
      configuration can state: the estimate says ten shares at 0.00000001 fit a budget of
      0.0000001, and with a brokerage of 0.4 basis points they cost 0.000000100004. So the
      estimate alone keeps no budget, and the engine's correction loop is needed. */
  lemma EstimateIsNotConservative()
    ensures var model := Model(0, 0, BasisPoints(4 * ONE / 10), 0);
            && model == Model(0, 0, 40_000_000, 0)
            && AffordableQuantity(model, 100_000, 10_000, Same) == FromInt(10)
            && Price(model, Buy, FromInt(10), 10_000, Same).cashEffect == -100_004
  {
    assert BasisPoints(4 * ONE / 10) == 40_000_000 by { HalfEvenExact(40_000_000, 10_000 * SCALE); }
    var model := Model(0, 0, 40_000_000, 0);
    assert Mul(10_000, 0) == 0;
    assert Mul(10_000, model.brokerageRate) == 0;
    assert PerShare(model, 10_000, Same) == 10_000;
    assert Div(100_000, 10_000) == 10 * SCALE by { HalfEvenExact(10 * SCALE, 10_000); }
    MulWhole(10_000, 10);
    assert Mul(100_000, model.brokerageRate) == 4;
    assert Mul(100_000, 0) == 0;
  }
}

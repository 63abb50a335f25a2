/** The exact-decimal kernel: a figure is an integer scaled by 10^12, and every
    operation rounds half to even at that scale before the next one reads it. */
module Decimal {

  type Dec = int

  const SCALE: int := 1_000_000_000_000
  const ONE: Dec := SCALE

  function Abs(x: int): (a: int)
    ensures a >= 0
  {
    if x < 0 then -x else x
  }

  /** q is n/d rounded to nearest with ties to even (roundTiesToEven, section
      4.3.1 of IEEE 754-2019). This is the definition the code is held to. */
  ghost predicate IsHalfEven(n: int, d: int, q: int)
    requires d != 0
  {
    var twice := 2 * Abs(n - q * d);
    twice <= Abs(d) && (twice == Abs(d) ==> q % 2 == 0)
  }

  /** At most one integer is the half-even rounding of a quotient. */
  lemma HalfEvenUnique(n: int, d: int, q: int, r: int)
    requires d != 0 && IsHalfEven(n, d, q) && IsHalfEven(n, d, r)
    ensures q == r
  {
    var k := q - r;
    var x, y, z := n - q * d, n - r * d, k * d;
    assert z == y - x by { assert (q - r) * d == q * d - r * d; }
    if k >= 2 || k <= -2 {
      ScaledMagnitude(k, d);
      assert false;
    } else {
      assert z == if k == 1 then d else if k == -1 then -d else 0;
      assert k != 0 ==> 2 * Abs(x) == Abs(d) == 2 * Abs(y);
    }
  }

  lemma ScaledMagnitude(k: int, d: int)
    requires (k >= 2 || k <= -2) && d != 0
    ensures Abs(k * d) >= 2 * Abs(d) > Abs(d)
  {
    AbsProduct(k, d);
    var a, b := Abs(k), Abs(d);
    assert a * b == 2 * b + (a - 2) * b;
    NonNegProduct(a - 2, b);
  }

  lemma AbsProduct(x: int, y: int)
    ensures Abs(x * y) == Abs(x) * Abs(y)
  {
    if x >= 0 && y >= 0 {
      NonNegProduct(x, y);
    } else if x >= 0 {
      NonNegProduct(x, -y);
      assert x * y == -(x * -y);
    } else if y >= 0 {
      NonNegProduct(-x, y);
      assert x * y == -(-x * y);
    } else {
      NonNegProduct(-x, -y);
      assert x * y == -x * -y;
    }
  }

  lemma NonNegProduct(x: int, y: int)
    requires x >= 0 && y >= 0
    ensures x * y >= 0
  {
  }

  function HalfEvenNat(n: nat, d: nat): (q: nat)
    requires d > 0
  {
    var q, r := n / d, n % d;
    if 2 * r > d then q + 1
    else if 2 * r == d && q % 2 == 1 then q + 1
    else q
  }

  /** The quotient of two integers of any sign, rounded half to even. */
  function HalfEven(n: int, d: int): (q: int)
    requires d != 0
  {
    var q: int := HalfEvenNat(Abs(n), Abs(d));
    if (n < 0) != (d < 0) && n != 0 then -q else q
  }

  /** What the code computes is the half-even rounding, and the only one. */
  lemma HalfEvenIsNearest(n: int, d: int)
    requires d != 0
    ensures IsHalfEven(n, d, HalfEven(n, d))
    ensures forall q :: IsHalfEven(n, d, q) ==> q == HalfEven(n, d)
  {
    hide HalfEven, IsHalfEven;
    HalfEvenAchieves(n, d);
    forall r | IsHalfEven(n, d, r) ensures r == HalfEven(n, d) {
      HalfEvenUnique(n, d, r, HalfEven(n, d));
    }
  }

  lemma HalfEvenAchieves(n: int, d: int)
    requires d != 0
    ensures IsHalfEven(n, d, HalfEven(n, d))
  {
    HalfEvenNatIsNearest(Abs(n), Abs(d));
    SignedError(n, d, HalfEvenNat(Abs(n), Abs(d)));
    hide HalfEvenNat;
  }

  lemma HalfEvenNatIsNearest(n: nat, d: nat)
    requires d > 0
    ensures IsHalfEven(n, d, HalfEvenNat(n, d))
  {
    var q, r := n / d, n % d;
    assert n == q * d + r;
    assert (q + 1) * d == q * d + d;
  }

  /** Rounding the magnitudes and restoring the sign makes the same error. */
  lemma SignedError(n: int, d: int, q: int)
    requires d != 0 && (n == 0 ==> q == 0)
    ensures var signed := if (n < 0) != (d < 0) && n != 0 then -q else q;
            Abs(n - signed * d) == Abs(Abs(n) - q * Abs(d))
  {
    var p := q * d;
    assert (-q) * d == -p && q * (-d) == -p;
  }

  /** divideHalfEven: magnitudes first, one correction, then the sign. */
  method DivideHalfEven(numerator: int, denominator: int) returns (quotient: int)
    requires denominator != 0
    ensures quotient == HalfEven(numerator, denominator)
  {
    var negative := (numerator < 0 && denominator > 0) || (numerator > 0 && denominator < 0);
    var n, d := Abs(numerator), Abs(denominator);
    quotient := n / d;
    var twice := 2 * (n % d);
    if twice > d {
      quotient := quotient + 1;
    } else if twice == d {
      if quotient % 2 == 1 {
        quotient := quotient + 1;
      }
    }
    if negative {
      quotient := -quotient;
    }
  }

  function Mul(a: Dec, b: Dec): Dec {
    HalfEven(a * b, SCALE)
  }

  function Div(a: Dec, b: Dec): Dec
    requires b != 0
  {
    HalfEven(a * SCALE, b)
  }

  function Max(a: Dec, b: Dec): Dec {
    if a >= b then a else b
  }

  function FromInt(v: int): Dec {
    v * SCALE
  }

  /** How many whole units fit, rounding toward minus infinity. */
  function Floor(d: Dec): (f: int)
    ensures FromInt(f) <= d < FromInt(f) + SCALE
  {
    d / SCALE
  }

  /** Floor as the code computes it: a truncated quotient, corrected when the
      truncated remainder is negative. */
  method FloorTruncated(d: Dec) returns (quotient: int)
    ensures quotient == Floor(d)
  {
    quotient := if d >= 0 then d / SCALE else -((-d) / SCALE);
    var remainder := d - quotient * SCALE;
    if remainder < 0 {
      quotient := quotient - 1;
    }
  }

  function BasisPoints(v: Dec): Dec {
    Div(v, FromInt(10000))
  }

  /** Both operations land within half a unit of the twelfth place of the exact
      result, and on a tie take the even neighbour, for every combination of
      signs; no other figure does. */
  lemma MulDivNearest(a: Dec, b: Dec)
    ensures IsHalfEven(a * b, SCALE, Mul(a, b))
    ensures forall q :: IsHalfEven(a * b, SCALE, q) ==> q == Mul(a, b)
    ensures b != 0 ==> IsHalfEven(a * SCALE, b, Div(a, b))
    ensures b != 0 ==> forall q :: IsHalfEven(a * SCALE, b, q) ==> q == Div(a, b)
  {
    HalfEvenIsNearest(a * b, SCALE);
    if b != 0 { HalfEvenIsNearest(a * SCALE, b); }
  }

  /** Multiplying by a whole number of units does not round at all. */
  lemma MulWhole(a: Dec, k: int)
    ensures Mul(a, FromInt(k)) == Mul(FromInt(k), a) == a * k
  {
    var whole := a * k;
    assert a * FromInt(k) == whole * SCALE == FromInt(k) * a by {
      assert a * (k * SCALE) == (a * k) * SCALE == (k * SCALE) * a;
    }
    HalfEvenExact(whole, SCALE);
  }

  /** An exact quotient is its own rounding. */
  lemma HalfEvenExact(q: int, d: int)
    requires d != 0
    ensures HalfEven(q * d, d) == q
  {
    HalfEvenIsNearest(q * d, d);
    assert IsHalfEven(q * d, d, q);
  }

  /** Rounding keeps signs: a quotient of a non-negative by a positive is non-negative. */
  lemma HalfEvenSign(n: int, d: int)
    requires n >= 0 && d > 0
    ensures HalfEven(n, d) >= 0
  {
  }
}

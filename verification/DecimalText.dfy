/** Reading and writing decimals: ParseDec and String. */
module DecimalText {
  import opened Prelude
  import opened Decimal
  import opened Digits

  const PLACES: nat := 12

  datatype ParseError = EmptyDecimal | MalformedDecimal

  // ---- The library's text operations ----------------------------------------------------------

  predicate IsSpace(c: char) {
    c in {'\t', '\n', '\U{000B}', '\U{000C}', '\r', ' ', '\U{0085}', '\U{00A0}', '\U{1680}', '\U{2028}', '\U{2029}',
          '\U{202F}', '\U{205F}', '\U{3000}'} || '\U{2000}' <= c <= '\U{200A}'
  }

  function TrimLeft(s: string): string {
    if s != [] && IsSpace(s[0]) then TrimLeft(s[1..]) else s
  }

  function TrimRight(s: string): string {
    if s != [] && IsSpace(s[|s| - 1]) then TrimRight(s[..|s| - 1]) else s
  }

  function TrimSpace(s: string): string {
    TrimRight(TrimLeft(s))
  }

  function TrimPrefix(s: string, c: char): string {
    if s != [] && s[0] == c then s[1..] else s
  }

  /** Where the first c is, or the length of the text. */
  function IndexOf(s: string, c: char): (i: nat)
    ensures i <= |s| && (forall j :: 0 <= j < i ==> s[j] != c) && (i < |s| ==> s[i] == c)
  {
    if s == [] || s[0] == c then 0 else 1 + IndexOf(s[1..], c)
  }

  /** The text around the first c; all of it and nothing when there is none. */
  function Cut(s: string, c: char): (string, string) {
    var i := IndexOf(s, c);
    if i < |s| then (s[..i], s[i + 1..]) else (s, [])
  }

  /** A big integer in base ten: one optional sign, then digits and nothing else. */
  function SetString(s: string): Option<int> {
    var negative := s != [] && s[0] == '-';
    var digits := if s != [] && (s[0] == '-' || s[0] == '+') then s[1..] else s;
    if digits == [] || !AllDigits(digits) then None
    else
      var magnitude: int := Value(digits);
      Some(if negative then -magnitude else magnitude)
  }

  // ---- ParseDec -------------------------------------------------------------------------------

  predicate AllZeros(s: string) {
    forall i :: 0 <= i < |s| ==> s[i] == '0'
  }

  /** Whether what lies beyond the twelfth place rounds the kept number up. */
  predicate RoundsUp(tail: string, odd: bool)
    requires tail != []
  {
    tail[0] > '5' || (tail[0] == '5' && (!AllZeros(tail[1..]) || odd))
  }

  function ParseUnsigned(text: string): Result<Dec, ParseError> {
    var (integer, fraction) := Cut(text, '.');
    if integer == [] && fraction == [] then Err(MalformedDecimal)
    else
      var digits := if |fraction| <= PLACES then integer + fraction + Repeat('0', PLACES - |fraction|)
                    else integer + fraction[..PLACES];
      var number := SetString(digits);
      if number.None? then Err(MalformedDecimal)
      else if |fraction| > PLACES && RoundsUp(fraction[PLACES..], number.value % 2 == 1) then Ok(number.value + 1)
      else Ok(number.value)
  }

  function ParseDec(value: string): Result<Dec, ParseError> {
    var text := TrimSpace(value);
    if text == [] then Err(EmptyDecimal)
    else
      var parsed := ParseUnsigned(TrimPrefix(TrimPrefix(text, '-'), '+'));
      if parsed.Ok? && text[0] == '-' then Ok(-parsed.value) else parsed
  }

  /** ParseDec as it runs: the kept digits become a number that is then adjusted in place. */
  method ParseInPlace(value: string) returns (r: Result<Dec, ParseError>)
    ensures r == ParseDec(value)
  {
    hide TrimSpace, TrimPrefix, Cut, SetString, AllZeros;
    var text := TrimSpace(value);
    if text == [] {
      return Err(EmptyDecimal);
    }
    var negative := text[0] == '-';
    text := TrimPrefix(TrimPrefix(text, '-'), '+');
    var (integer, fraction) := Cut(text, '.');
    if integer == [] && fraction == [] {
      return Err(MalformedDecimal);
    }
    var digits := integer;
    if |fraction| <= PLACES {
      digits := digits + fraction + Repeat('0', PLACES - |fraction|);
    } else {
      digits := digits + fraction[..PLACES];
    }
    var read := SetString(digits);
    if read.None? {
      return Err(MalformedDecimal);
    }
    var number := read.value;
    if |fraction| > PLACES {
      var tail := fraction[PLACES..];
      var up := tail[0] > '5';
      if tail[0] == '5' {
        up := !AllZeros(tail[1..]) || number % 2 == 1;
      }
      if up {
        number := number + 1;
      }
    }
    if negative {
      number := -number;
    }
    r := Ok(number);
  }

  // ---- String ---------------------------------------------------------------------------------

  function Render(d: Dec): string {
    var digits := Padded(Abs(d), PLACES + 1);
    var split := |digits| - PLACES;
    (if d < 0 then "-" else "") + digits[..split] + "." + digits[split..]
  }

  // ---- Well-formed text -----------------------------------------------------------------------

  datatype Sign = Unsigned | Plus | Minus

  function SignText(sign: Sign): string {
    match sign
    case Unsigned => ""
    case Plus => "+"
    case Minus => "-"
  }

  /** A sign, digits, and a point with more digits when the fraction is given. */
  function Written(sign: Sign, integer: string, fraction: Option<string>): string {
    SignText(sign) + integer + (if fraction.Some? then "." + fraction.value else "")
  }

  function FractionOf(fraction: Option<string>): string {
    if fraction.Some? then fraction.value else ""
  }

  ghost predicate WellFormed(integer: string, fraction: Option<string>) {
    AllDigits(integer) && AllDigits(FractionOf(fraction)) && (integer != [] || FractionOf(fraction) != [])
  }

  lemma TrimNothing(s: string)
    requires s != [] && !IsSpace(s[0]) && !IsSpace(s[|s| - 1])
    ensures TrimSpace(s) == s
  {
  }

  lemma CutDecimal(integer: string, fraction: Option<string>)
    requires AllDigits(integer)
    ensures Cut(Written(Unsigned, integer, fraction), '.') == (integer, FractionOf(fraction))
  {
    var s := Written(Unsigned, integer, fraction);
    var i := IndexOf(s, '.');
    if fraction.Some? {
      assert s == integer + "." + fraction.value;
      assert s[|integer|] == '.';
      assert i == |integer|;
      assert s[..i] == integer && s[i + 1..] == fraction.value;
    } else {
      assert s == integer;
    }
  }

  /** Trimming and stripping one sign leaves the digits and the point. */
  lemma StripSign(sign: Sign, integer: string, fraction: Option<string>)
    requires WellFormed(integer, fraction)
    ensures var s := Written(sign, integer, fraction);
            && s != [] && TrimSpace(s) == s && (s[0] == '-' <==> sign == Minus)
            && TrimPrefix(TrimPrefix(s, '-'), '+') == Written(Unsigned, integer, fraction)
  {
    var s, body := Written(sign, integer, fraction), Written(Unsigned, integer, fraction);
    BodyEnds(integer, fraction);
    assert s == SignText(sign) + body;
    hide Written, TrimSpace, WellFormed;
    SpaceOrNot(s[0]);
    SpaceOrNot(s[|s| - 1]);
    if sign == Unsigned {
      assert s == body;
    } else {
      assert s[1..] == body && s[|s| - 1] == body[|body| - 1];
    }
    TrimNothing(s);
  }

  /** A number's text begins and ends with a digit or the point. */
  lemma BodyEnds(integer: string, fraction: Option<string>)
    requires WellFormed(integer, fraction)
    ensures var body := Written(Unsigned, integer, fraction);
            && body != [] && (IsDigit(body[0]) || body[0] == '.')
               && (IsDigit(body[|body| - 1]) || body[|body| - 1] == '.')
  {
  }

  lemma SpaceOrNot(c: char)
    ensures IsDigit(c) || c == '.' || c == '-' || c == '+' ==> !IsSpace(c)
  {
  }

  lemma SetStringDigits(s: string)
    requires AllDigits(s) && s != []
    ensures SetString(s) == Some(Value(s))
  {
  }

  // ---- ParseDec is half-even rounding ----------------------------------------------------------

  lemma ScaleIsPow()
    ensures Pow10(PLACES) == SCALE
  {
    assert Pow10(4) == 10000 by { assert Pow10(2) == 100; }
    PowAdds(4, 4);
    PowAdds(8, 4);
  }

  /** Scaling both sides of a quotient does not change its rounding. */
  lemma HalfEvenScaled(n: nat, d: nat, k: nat)
    requires d > 0 && k > 0
    ensures d * k > 0 && HalfEven(n * k, d * k) == HalfEven(n, d)
  {
    hide HalfEven;
    assert d * k > 0 by { NonNegProduct(d - 1, k - 1); assert d * k == (d - 1) * (k - 1) + (d - 1) + (k - 1) + 1; }
    HalfEvenIsNearest(n, d);
    HalfEvenIsNearest(n * k, d * k);
    ScaledStaysNearest(n, d, k, HalfEven(n, d));
  }

  lemma ScaledStaysNearest(n: nat, d: nat, k: nat, q: int)
    requires d > 0 && k > 0 && d * k > 0 && IsHalfEven(n, d, q)
    ensures IsHalfEven(n * k, d * k, q)
  {
    var e := n - q * d;
    Homogeneous(n, q, d, k);
    HalfScales(e, e * k, d, d * k, k);
  }

  lemma Homogeneous(n: int, q: int, d: int, k: int)
    ensures n * k - q * (d * k) == (n - q * d) * k
  {
    assert q * (d * k) == (q * d) * k;
    Distributes(n, q * d, k);
  }

  lemma Distributes(x: int, y: int, k: int)
    ensures (x - y) * k == x * k - y * k
  {
  }

  lemma HalfScales(e: int, f: int, d: int, m: int, k: int)
    requires k > 0 && f == e * k && m == d * k && 2 * Abs(e) <= d
    ensures 2 * Abs(f) <= m && (2 * Abs(f) == m ==> 2 * Abs(e) == d)
  {
    AbsProduct(e, k);
    var size := Abs(e);
    ScaleOrder(2 * size, d, k);
    assert (2 * size) * k == 2 * (size * k);
  }

  lemma ScaleOrder(x: int, y: int, k: int)
    requires k > 0
    ensures x <= y ==> x * k <= y * k
    ensures x < y ==> x * k < y * k
  {
  }

  /** What RoundsUp decides is the half-even rounding of the kept number and its tail. */
  lemma TailRounds(kept: nat, tail: string)
    requires AllDigits(tail) && tail != []
    ensures HalfEven(kept * Pow10(|tail|) + Value(tail), Pow10(|tail|))
         == if RoundsUp(tail, kept % 2 == 1) then kept + 1 else kept
  {
    TailAgainstHalf(tail);
    ValueBound(tail);
    hide HalfEven, Value, Pow10;
    var n, p := kept * Pow10(|tail|) + Value(tail), Pow10(|tail|);
    NearestByRemainder(kept, p, Value(tail));
    HalfEvenIsNearest(n, p);
  }

  /** Comparing twice the remainder with the divisor, and the parity on a tie, rounds half to even. */
  lemma NearestByRemainder(kept: nat, p: nat, r: nat)
    requires r < p
    ensures 2 * r > p || (2 * r == p && kept % 2 == 1) ==> IsHalfEven(kept * p + r, p, kept + 1)
    ensures 2 * r < p || (2 * r == p && kept % 2 == 0) ==> IsHalfEven(kept * p + r, p, kept)
  {
    assert (kept + 1) * p == kept * p + p;
  }

  lemma TailAgainstHalf(tail: string)
    requires AllDigits(tail) && tail != []
    ensures tail[0] > '5' ==> 2 * Value(tail) > Pow10(|tail|)
    ensures tail[0] < '5' ==> 2 * Value(tail) < Pow10(|tail|)
    ensures tail[0] == '5' ==> 2 * Value(tail) >= Pow10(|tail|)
    ensures tail[0] == '5' ==> (2 * Value(tail) == Pow10(|tail|) <==> AllZeros(tail[1..]))
  {
    LeadingDigit(tail);
    ValueIsZero(tail[1..]);
    PowUnfold(|tail|);
    hide Value, Pow10;
    var d, p := DigitOf(tail[0]), Pow10(|tail| - 1);
    if tail[0] > '5' {
      ScaleAtLeast(6, d, p);
    } else if tail[0] < '5' {
      ScaleAtLeast(d + 1, 5, p);
    }
  }

  lemma ScaleAtLeast(x: nat, y: nat, p: nat)
    requires x <= y
    ensures x * p <= y * p
  {
  }

  /** The digits ParseDec keeps, and the rounding it makes, on well-formed text. */
  lemma ParseUnsignedRounds(integer: string, fraction: Option<string>)
    requires WellFormed(integer, fraction)
    ensures var f := FractionOf(fraction);
            && AllDigits(integer + f)
            && ParseUnsigned(Written(Unsigned, integer, fraction))
               == Ok(HalfEven(Value(integer + f) * SCALE, Pow10(|f|)))
  {
    hide HalfEven, Value, Pow10, RoundsUp, SetString, Cut, Written;
    CutDecimal(integer, fraction);
    var f := FractionOf(fraction);
    ValueConcat(integer, f);
    if |f| <= PLACES {
      SetStringDigits(integer + f + Repeat('0', PLACES - |f|));
      ShortFraction(integer, f);
    } else {
      SetStringDigits(integer + f[..PLACES]);
      LongFraction(integer, f);
    }
  }

  lemma ShortFraction(integer: string, f: string)
    requires AllDigits(integer) && AllDigits(f) && |f| <= PLACES
    ensures AllDigits(integer + f) && AllDigits(integer + f + Repeat('0', PLACES - |f|))
    ensures Value(integer + f + Repeat('0', PLACES - |f|)) == HalfEven(Value(integer + f) * SCALE, Pow10(|f|))
  {
    hide HalfEven, Value, Pow10;
    ValueZeros(PLACES - |f|);
    ValueConcat(integer + f, Repeat('0', PLACES - |f|));
    PowAdds(PLACES - |f|, |f|);
    ScaleIsPow();
    var v, p, q := Value(integer + f), Pow10(PLACES - |f|), Pow10(|f|);
    Regroup(v, p, q);
    HalfEvenExact(v * p, q);
  }

  lemma Regroup(v: int, p: int, q: int)
    ensures v * (p * q) == (v * p) * q
  {
  }

  lemma LongFraction(integer: string, f: string)
    requires AllDigits(integer) && AllDigits(f) && |f| > PLACES
    ensures var kept, tail := integer + f[..PLACES], f[PLACES..];
            && AllDigits(integer + f) && AllDigits(kept) && AllDigits(tail)
            && HalfEven(Value(integer + f) * SCALE, Pow10(|f|))
               == if RoundsUp(tail, Value(kept) % 2 == 1) then Value(kept) + 1 else Value(kept)
  {
    hide HalfEven, Value, Pow10, RoundsUp;
    var kept, tail := integer + f[..PLACES], f[PLACES..];
    assert integer + f == kept + tail;
    ValueConcat(kept, tail);
    TailRounds(Value(kept), tail);
    PowAdds(|tail|, PLACES);
    ScaleIsPow();
    HalfEvenScaled(Value(integer + f), Pow10(|tail|), SCALE);
  }

  lemma HalfEvenNegates(n: int, d: int)
    requires d > 0
    ensures HalfEven(-n, d) == -HalfEven(n, d)
  {
  }

  /** ParseDec of any well-formed text is the half-even rounding of what the text
      writes to twelve places: sign, integer digits I and fraction digits F write
      the digits IF over 10 to the length of F. */
  lemma ParseIsRounding(sign: Sign, integer: string, fraction: Option<string>)
    requires WellFormed(integer, fraction)
    ensures var f := FractionOf(fraction);
            && AllDigits(integer + f)
            && var magnitude: int := Value(integer + f);
               ParseDec(Written(sign, integer, fraction))
               == Ok(HalfEven((if sign == Minus then -magnitude else magnitude) * SCALE, Pow10(|f|)))
  {
    hide ParseUnsigned, HalfEven, Value, Pow10, TrimSpace, TrimPrefix, Written;
    StripSign(sign, integer, fraction);
    ParseUnsignedRounds(integer, fraction);
    var magnitude: int := Value(integer + FractionOf(fraction));
    HalfEvenNegates(magnitude * SCALE, Pow10(|FractionOf(fraction)|));
    assert -magnitude * SCALE == -(magnitude * SCALE);
  }

  lemma RenderShape(d: Dec)
    ensures var digits := Padded(Abs(d), PLACES + 1);
            var split := |digits| - PLACES;
            && |digits| > PLACES
            && Render(d) == Written(if d < 0 then Minus else Unsigned, digits[..split], Some(digits[split..]))
  {
  }

  /** Writing a decimal and reading it back is the identity, on every decimal. */
  lemma ParseRender(d: Dec)
    ensures ParseDec(Render(d)) == Ok(d)
  {
    hide Render, ParseDec, Written, Padded;
    RenderShape(d);
    var digits := Padded(Abs(d), PLACES + 1);
    var split := |digits| - PLACES;
    assert digits[..split] + digits[split..] == digits;
    DigitsParse(d, digits[..split], digits[split..]);
  }

  /** Twelve digits after the point are read exactly. */
  lemma DigitsParse(d: Dec, integer: string, f: string)
    requires AllDigits(integer) && AllDigits(f) && |f| == PLACES && integer + f == Padded(Abs(d), PLACES + 1)
    ensures ParseDec(Written(if d < 0 then Minus else Unsigned, integer, Some(f))) == Ok(d)
  {
    hide Padded, HalfEven, Value, Pow10, ParseDec, Written;
    ParseIsRounding(if d < 0 then Minus else Unsigned, integer, Some(f));
    PaddedValue(Abs(d), PLACES + 1);
    ScaleIsPow();
    HalfEvenExact(d, SCALE);
  }

  /** Every rendering is a minus for a negative, digits, a point and exactly twelve digits after it. */
  lemma TwelvePlaces(d: Dec)
    ensures var text, sign := Render(d), if d < 0 then 1 else 0;
            var split := |text| - PLACES;
            && sign < split - 1 && (text[0] == '-' <==> d < 0) && text[split - 1] == '.'
            && AllDigits(text[sign..split - 1]) && AllDigits(text[split..])
  {
    hide Padded;
    var digits := Padded(Abs(d), PLACES + 1);
    var split := |digits| - PLACES;
    Around(if d < 0 then "-" else "", digits[..split], digits[split..]);
  }

  lemma Around(sign: string, a: string, b: string)
    ensures var text := sign + a + "." + b;
            && |text| == |sign| + |a| + 1 + |b| && text[..|sign|] == sign
            && text[|sign|..|sign| + |a|] == a && text[|sign| + |a|] == '.' && text[|sign| + |a| + 1..] == b
  {
  }

  /** Rendering is one-to-one. */
  lemma RenderInjective(a: Dec, b: Dec)
    requires Render(a) == Render(b)
    ensures a == b
  {
    ParseRender(a);
    ParseRender(b);
  }

  // ---- What is accepted ------------------------------------------------------------------------

  ghost predicate AllSpaces(s: string) {
    forall i :: 0 <= i < |s| ==> IsSpace(s[i])
  }

  lemma {:induction false} TrimsLeft(a: string, s: string)
    requires AllSpaces(a) && (s != [] ==> !IsSpace(s[0]))
    ensures TrimLeft(a + s) == s
    decreases |a|
  {
    hide IsSpace;
    if a == [] {
      assert a + s == s;
    } else {
      assert (a + s)[1..] == a[1..] + s && (a + s)[0] == a[0];
      TrimsLeft(a[1..], s);
    }
  }

  lemma {:induction false} TrimsRight(s: string, b: string)
    requires AllSpaces(b) && (s != [] ==> !IsSpace(s[|s| - 1]))
    ensures TrimRight(s + b) == s
    decreases |b|
  {
    hide IsSpace;
    if b == [] {
      assert s + b == s;
    } else {
      var last := |b| - 1;
      assert (s + b)[..|s + b| - 1] == s + b[..last] && (s + b)[|s + b| - 1] == b[last];
      TrimsRight(s, b[..last]);
    }
  }

  /** Spaces around a text are nothing to it, and a text of nothing else is the empty one. */
  lemma SpacesAround(a: string, s: string, b: string)
    requires AllSpaces(a) && AllSpaces(b) && (s != [] ==> !IsSpace(s[0]) && !IsSpace(s[|s| - 1]))
    ensures s != [] ==> ParseDec(a + s + b) == ParseDec(s)
    ensures s == [] ==> ParseDec(a + s + b) == Err(EmptyDecimal)
  {
    hide IsSpace, ParseUnsigned, TrimPrefix, AllSpaces;
    if s == [] {
      assert a + s + b == a + b;
      SpacesJoin(a, b);
      assert (a + b) + [] == a + b;
      TrimsLeft(a + b, []);
      TrimNone();
    } else {
      assert a + s + b == a + (s + b) && (s + b)[0] == s[0];
      TrimsLeft(a, s + b);
      TrimsRight(s, b);
      TrimNothing(s);
    }
  }

  lemma SpacesJoin(a: string, b: string)
    requires AllSpaces(a) && AllSpaces(b)
    ensures AllSpaces(a + b)
  {
  }

  lemma TrimNone()
    ensures TrimRight([]) == []
  {
  }

  /** Only that error is the empty text's; any other refused text is malformed. */
  lemma EmptyExactly(value: string)
    ensures ParseDec(value) == Err(EmptyDecimal) <==> AllSpaces(value)
  {
    hide IsSpace, ParseUnsigned, TrimPrefix;
    if AllSpaces(value) {
      assert value + [] + [] == value;
      SpacesAround(value, [], []);
    } else {
      NotAllTrimmed(value);
      UnsignedIsNotEmpty(TrimPrefix(TrimPrefix(TrimSpace(value), '-'), '+'));
    }
  }

  lemma UnsignedIsNotEmpty(text: string)
    ensures ParseUnsigned(text) != Err(EmptyDecimal)
  {
    hide SetString, Cut, RoundsUp;
  }

  lemma NotAllTrimmed(value: string)
    requires !AllSpaces(value)
    ensures TrimSpace(value) != []
  {
    hide IsSpace;
    var i :| 0 <= i < |value| && !IsSpace(value[i]);
    var j := LeftKeeps(value, i);
    RightKeeps(TrimLeft(value), j);
  }

  lemma {:induction false} LeftKeeps(s: string, i: nat) returns (j: nat)
    requires i < |s| && !IsSpace(s[i])
    ensures j < |TrimLeft(s)| && !IsSpace(TrimLeft(s)[j])
    decreases |s|
  {
    hide IsSpace;
    if IsSpace(s[0]) {
      j := LeftKeeps(s[1..], i - 1);
    } else {
      j := i;
    }
  }

  lemma {:induction false} RightKeeps(s: string, i: nat)
    requires i < |s| && !IsSpace(s[i])
    ensures TrimRight(s) != []
    decreases |s|
  {
    hide IsSpace;
    if IsSpace(s[|s| - 1]) { RightKeeps(s[..|s| - 1], i); }
  }

  /** What is left of a text once spaces and one sign are stripped. */
  function Body(value: string): string {
    TrimPrefix(TrimPrefix(TrimSpace(value), '-'), '+')
  }

  function DropSign(s: string): string {
    if s != [] && (s[0] == '-' || s[0] == '+') then s[1..] else s
  }

  /** The digits looked at: the integer and at most twelve places. */
  function Looked(integer: string, fraction: string): string {
    integer + fraction[..if |fraction| <= PLACES then |fraction| else PLACES]
  }

  /** The text reads as a decimal exactly when it is not empty, has an integer or a fraction, and
      what is looked at is digits after one more sign at most. */
  lemma AcceptedExactly(value: string)
    ensures var (integer, fraction) := Cut(Body(value), '.');
            ParseDec(value).Ok?
            <==> TrimSpace(value) != [] && (integer != [] || fraction != [])
                 && AllDigits(DropSign(Looked(integer, fraction)))
  {
    hide TrimSpace, Cut, Value, RoundsUp;
    var (integer, fraction) := Cut(Body(value), '.');
    if |fraction| <= PLACES {
      assert fraction[..|fraction|] == fraction;
      ZerosAfter(integer + fraction, PLACES - |fraction|);
    } else {
      SignLeavesDigits(integer + fraction[..PLACES]);
    }
  }

  lemma ZerosAfter(digits: string, n: nat)
    requires |digits| + n >= PLACES
    ensures SetString(digits + Repeat('0', n)).Some? <==> AllDigits(DropSign(digits))
  {
    hide Value, Repeat;
    var all := digits + Repeat('0', n);
    if digits != [] {
      assert all[0] == digits[0] && all[1..] == digits[1..] + Repeat('0', n);
      DigitsAndZeros(DropSign(digits), n);
      assert DropSign(all) == DropSign(digits) + Repeat('0', n);
    } else {
      assert all == Repeat('0', n);
      DigitsAndZeros([], n);
      assert [] + Repeat('0', n) == Repeat('0', n);
      assert all[0] == '0';
    }
  }

  lemma DigitsAndZeros(digits: string, n: nat)
    ensures AllDigits(digits + Repeat('0', n)) <==> AllDigits(digits)
  {
    hide Repeat;
    var all := digits + Repeat('0', n);
    if AllDigits(all) {
      forall i | 0 <= i < |digits| ensures IsDigit(digits[i]) { assert all[i] == digits[i]; }
    }
  }

  lemma SignLeavesDigits(digits: string)
    requires |digits| >= 2
    ensures SetString(digits).Some? <==> AllDigits(DropSign(digits))
  {
    hide Value;
  }

  /** Of what is accepted, the texts that are no sign, digits and point with digits are those with
      a second sign, or with something else than a digit past the twelfth place. */
  lemma AcceptedBeyondDecimals(value: string)
    requires ParseDec(value).Ok?
    ensures var (integer, fraction) := Cut(Body(value), '.');
            WellFormed(integer, Some(fraction))
            <==> DropSign(Looked(integer, fraction)) == Looked(integer, fraction)
                 && (|fraction| > PLACES ==> AllDigits(fraction[PLACES..]))
  {
    AcceptedExactly(value);
    hide TrimSpace, Cut, ParseDec, Body;
    var (integer, fraction) := Cut(Body(value), '.');
    var looked := Looked(integer, fraction);
    if WellFormed(integer, Some(fraction)) {
      forall i | 0 <= i < |looked| ensures IsDigit(looked[i]) { }
      if looked != [] { assert IsDigit(looked[0]); }
    }
    if DropSign(looked) == looked && (|fraction| > PLACES ==> AllDigits(fraction[PLACES..])) {
      forall i | 0 <= i < |integer| ensures IsDigit(integer[i]) { assert looked[i] == integer[i]; }
      forall i | 0 <= i < |fraction| ensures IsDigit(fraction[i]) {
        if i < PLACES {
          assert looked[|integer| + i] == fraction[i];
        } else {
          assert fraction[PLACES..][i - PLACES] == fraction[i];
        }
      }
    }
  }

  /** A second sign is read as one: minus minus five is five. */
  lemma SecondSignIsRead()
    ensures ParseDec("--5") == Ok(5 * SCALE)
  {
    TrimNothing("--5");
    assert "--5"[1..] == "-5";
    assert "-5"[1..] == "5" && "5"[1..] == "";
    assert IndexOf("-5", '.') == 2;
    assert Cut("-5", '.') == ("-5", "");
    hide Repeat, Value;
    var digits := "-5" + "" + Repeat('0', PLACES);
    assert digits[1..] == "5" + Repeat('0', PLACES);
    FiveAndZeros();
    assert SetString(digits) == Some(-5 * SCALE);
    hide TrimSpace, Cut, SetString;
    assert TrimPrefix(TrimPrefix("--5", '-'), '+') == "-5";
    assert ParseUnsigned("-5") == Ok(-5 * SCALE);
  }

  lemma FiveAndZeros()
    ensures AllDigits("5" + Repeat('0', PLACES)) && Value("5" + Repeat('0', PLACES)) == 5 * SCALE
  {
    ValueConcat("5", Repeat('0', PLACES));
    ValueZeros(PLACES);
    ValueSingle("5");
    ScaleIsPow();
  }

  /** What follows the twelfth place is not read as digits: a letter there rounds up. */
  lemma LetterRoundsUp()
    ensures ParseDec("1." + Repeat('0', PLACES) + "x") == Ok(SCALE + 1)
  {
    hide Repeat;
    var zeros := Repeat('0', PLACES);
    var text := "1." + zeros + "x";
    TrimNothing(text);
    var fraction := zeros + "x";
    assert IndexOf(text, '.') == 1 by { assert text[0] == '1' && text[1] == '.'; assert text[1..][0] == '.'; }
    assert text[..1] == "1" && text[2..] == fraction;
    assert fraction[..PLACES] == zeros && fraction[PLACES..] == "x";
    OneAndZeros();
  }

  lemma OneAndZeros()
    ensures AllDigits("1" + Repeat('0', PLACES)) && Value("1" + Repeat('0', PLACES)) == SCALE
  {
    ValueConcat("1", Repeat('0', PLACES));
    ValueZeros(PLACES);
    ValueSingle("1");
    ScaleIsPow();
  }
}

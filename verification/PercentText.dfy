/** How the client prints a decimal string, and one as a percentage. */
module PercentText {
  import opened Prelude
  import opened Digits
  import DecimalText

  /** An optional minus, digits, and an optional point with digits after it. */
  datatype Plain = Plain(negative: bool, whole: string, fraction: Option<string>)
  {
    ghost predicate Valid() {
      && whole != [] && AllDigits(whole)
      && (fraction.Some? ==> fraction.value != [] && AllDigits(fraction.value))
    }

    function Text(): string {
      (if negative then "-" else "") + whole + (if fraction.Some? then "." + fraction.value else "")
    }

    function Fraction(): string {
      if fraction.Some? then fraction.value else ""
    }

    /** The magnitude is these digits over ten to the length of the fraction. */
    function Digits(): nat
      requires Valid()
    {
      Value(whole + Fraction())
    }
  }

  /** The pattern: which texts are decimals, and what their parts are. */
  function Match(text: string): Option<Plain> {
    var negative := text != [] && text[0] == '-';
    var body := if negative then text[1..] else text;
    var (whole, fraction) := DecimalText.Cut(body, '.');
    if whole == [] || !AllDigits(whole) then None
    else if |whole| == |body| then Some(Plain(negative, whole, None))
    else if fraction == [] || !AllDigits(fraction) then None
    else Some(Plain(negative, whole, Some(fraction)))
  }

  /** The pattern accepts exactly the texts of valid decimals, and reads their parts. */
  lemma MatchMeans(text: string, p: Plain)
    ensures Match(text) == Some(p) <==> p.Valid() && p.Text() == text
  {
    if Match(text) == Some(p) { MatchSound(text, p); }
    if p.Valid() && p.Text() == text { MatchComplete(text, p); }
  }

  lemma MatchSound(text: string, p: Plain)
    requires Match(text) == Some(p)
    ensures p.Valid() && p.Text() == text
  {
    hide AllDigits, DecimalText.IndexOf;
    var body := if p.negative then text[1..] else text;
    var sign := if p.negative then "-" else "";
    assert text == sign + body;
    var tail := if p.fraction.Some? then "." + p.fraction.value else "";
    assert body == p.whole + tail by { CutJoins(body, '.'); }
    Associates(sign, p.whole, tail);
  }

  lemma CutJoins(s: string, c: char)
    ensures var (before, after) := DecimalText.Cut(s, c);
            if |before| == |s| then s == before else s == before + ([c] + after)
  {
    hide DecimalText.IndexOf;
  }

  lemma Associates(a: string, b: string, c: string)
    ensures a + b + c == a + (b + c)
  {
  }

  lemma MatchComplete(text: string, p: Plain)
    requires p.Valid() && p.Text() == text
    ensures Match(text) == Some(p)
  {
    hide DecimalText.Cut, DecimalText.IndexOf;
    var body := DecimalText.Written(DecimalText.Unsigned, p.whole, p.fraction);
    var tail := if p.fraction.Some? then "." + p.fraction.value else "";
    assert body == p.whole + tail;
    Associates(if p.negative then "-" else "", p.whole, tail);
    assert p.negative ==> text == "-" + body && text[1..] == body;
    assert !p.negative ==> text == body && text[0] == p.whole[0];
    DecimalText.CutDecimal(p.whole, p.fraction);
  }

  // ---- formatDecimal --------------------------------------------------------------------------

  function TrimTrailingZeros(s: string): string {
    if s != [] && s[|s| - 1] == '0' then TrimTrailingZeros(s[..|s| - 1]) else s
  }

  function PadEnd(s: string, width: nat): string {
    if |s| < width then s + Repeat('0', width - |s|) else s
  }

  function PadStart(s: string, width: nat): string {
    if |s| < width then Repeat('0', width - |s|) + s else s
  }

  /** The regular expression decides whether the text is a decimal; the parts are then split at the point. */
  function FormatDecimal(p: Plain, minimumFractionDigits: nat): Plain {
    var padded := PadEnd(TrimTrailingZeros(p.Fraction()), minimumFractionDigits);
    p.(fraction := if padded == [] then None else Some(padded))
  }

  lemma {:induction false} TrimmedZeros(s: string)
    requires AllDigits(s)
    ensures var t := TrimTrailingZeros(s);
            && AllDigits(t) && |t| <= |s| && s == t + Repeat('0', |s| - |t|)
            && (t != [] ==> t[|t| - 1] != '0')
    decreases |s|
  {
    if s != [] && s[|s| - 1] == '0' {
      TrimmedZeros(s[..|s| - 1]);
      var t := TrimTrailingZeros(s);
      assert s == s[..|s| - 1] + ['0'] == t + (Repeat('0', |s| - 1 - |t|) + ['0']);
    } else {
      assert s == s + Repeat('0', 0);
    }
  }

  lemma AppendZeros(s: string, n: nat)
    requires AllDigits(s)
    ensures AllDigits(s + Repeat('0', n)) && Value(s + Repeat('0', n)) == Value(s) * Pow10(n)
  {
    ValueZeros(n);
    ValueConcat(s, Repeat('0', n));
  }

  /** formatDecimal writes the same number, with the same sign and whole part, at least
      the fraction digits asked for, and beyond those no trailing zero. */
  lemma FormatKeepsValue(p: Plain, minimum: nat)
    requires p.Valid()
    ensures var r := FormatDecimal(p, minimum);
            && r.Valid() && r.negative == p.negative && r.whole == p.whole
            && r.Digits() * Pow10(|p.Fraction()|) == p.Digits() * Pow10(|r.Fraction()|)
            && |r.Fraction()| >= minimum
            && (|r.Fraction()| > minimum ==> r.Fraction()[|r.Fraction()| - 1] != '0')
  {
    hide Value, Pow10;
    var f := p.Fraction();
    var t := TrimTrailingZeros(f);
    TrimmedZeros(f);
    hide TrimTrailingZeros;
    var r := FormatDecimal(p, minimum);
    var padding := if |t| < minimum then minimum - |t| else 0;
    assert r.Fraction() == t + Repeat('0', padding);
    SameNumber(p.whole, t, |f| - |t|, padding);
    ValueZeros(padding);
  }

  /** Trailing zeros of a fraction add nothing to the number, however many there are. */
  lemma SameNumber(whole: string, t: string, m: nat, n: nat)
    requires AllDigits(whole) && AllDigits(t)
    ensures var x, y := t + Repeat('0', m), t + Repeat('0', n);
            AllDigits(whole + x) && AllDigits(whole + y)
            && Value(whole + y) * Pow10(|x|) == Value(whole + x) * Pow10(|y|)
  {
    hide Value, Pow10;
    Associates(whole, t, Repeat('0', m));
    Associates(whole, t, Repeat('0', n));
    AppendZeros(whole + t, m);
    AppendZeros(whole + t, n);
    PowAdds(|t|, m);
    PowAdds(|t|, n);
    CrossMultiply(Value(whole + t), Pow10(|t|), Pow10(n), Pow10(m));
  }

  lemma CrossMultiply(v: nat, t: nat, a: nat, b: nat)
    ensures (v * a) * (t * b) == (v * b) * (t * a)
  {
  }

  // ---- formatDecimalPercent -------------------------------------------------------------------

  /** q is n/d rounded to nearest with ties away from zero, for magnitudes. */
  ghost predicate IsHalfAway(n: int, d: int, q: int) {
    (2 * q - 1) * d <= 2 * n < (2 * q + 1) * d
  }

  lemma HalfAwayUnique(n: int, d: nat, q: int, r: int)
    requires d > 0 && IsHalfAway(n, d, q) && IsHalfAway(n, d, r)
    ensures q == r
  {
    if q < r { Strict(2 * q + 1, 2 * r - 1, d); } else if r < q { Strict(2 * r + 1, 2 * q - 1, d); }
  }

  lemma Strict(x: int, y: int, d: nat)
    requires x <= y
    ensures x * d <= y * d
  {
  }

  /** The leading zeros the pattern drops: all but those needed to leave one digit. */
  function DropLeadingZeros(s: string): string {
    if |s| > 1 && s[0] == '0' then DropLeadingZeros(s[1..]) else s
  }

  /** The digits kept at the requested place, stepped up when the next digit is five or more. */
  function RoundedDigits(whole: string, fraction: string, fractionDigits: nat): string
    requires AllDigits(whole) && AllDigits(fraction)
  {
    var digits := whole + PadEnd(fraction, fractionDigits + 3);
    var cut := |whole| + 2 + fractionDigits;
    assert |digits| > cut && AllDigits(digits[..cut]);
    var kept := digits[..cut];
    if digits[cut] >= '5' then PadStart(NatText(Value(kept) + 1), |kept|) else kept
  }

  /** Rounded digits as text: the point put back, leading zeros dropped, the sign last. */
  function Joined(integer: string, decimals: string, fractionDigits: nat): string {
    if fractionDigits == 0 then integer else integer + "." + decimals
  }

  /** What is printed between the sign and the percent sign. */
  function Between(s: string, fractionDigits: nat): string
    requires |s| > fractionDigits
  {
    var split := |s| - fractionDigits;
    Joined(DropLeadingZeros(s[..split]), s[split..], fractionDigits)
  }

  function Print(negative: bool, rounded: string, fractionDigits: nat): string {
    var printed := Between(PadStart(rounded, fractionDigits + 1), fractionDigits);
    (if negative && !ZeroText(printed) then "-" else "") + printed + "%"
  }

  function PercentOf(p: Plain, fractionDigits: nat): string
    requires p.Valid()
  {
    Print(p.negative, RoundedDigits(p.whole, p.Fraction(), fractionDigits), fractionDigits)
  }

  /** A single zero, perhaps with a point and zeros after it. */
  predicate ZeroText(s: string) {
    s != [] && s[0] == '0' && (|s| == 1 || (s[1] == '.' && forall i :: 2 <= i < |s| ==> s[i] == '0'))
  }

  /** What should be printed for n units of the last place. */
  function PercentText(n: nat, fractionDigits: nat): string {
    NatText(Whole(n, fractionDigits))
    + (if fractionDigits == 0 then "" else "." + Padded(Part(n, fractionDigits), fractionDigits)) + "%"
  }

  /** n units of the last place, as whole percents and what is left over. */
  function Whole(n: nat, fractionDigits: nat): nat {
    Quot(n, Pow10(fractionDigits))
  }

  function Quot(n: nat, d: nat): nat
    requires d > 0
  {
    n / d
  }

  function Rem(n: nat, d: nat): nat
    requires d > 0
  {
    n % d
  }

  function Part(n: nat, fractionDigits: nat): nat {
    Rem(n, Pow10(fractionDigits))
  }

  lemma PadEndValue(whole: string, fraction: string, width: nat)
    requires AllDigits(whole) && AllDigits(fraction)
    ensures var e := PadEnd(fraction, width);
            AllDigits(whole + e) && |e| >= |fraction| && |e| >= width
            && Value(whole + e) == Value(whole + fraction) * Pow10(|e| - |fraction|)
  {
    var n := if |fraction| < width then width - |fraction| else 0;
    assert whole + PadEnd(fraction, width) == (whole + fraction) + Repeat('0', n);
    AppendZeros(whole + fraction, n);
  }

  /** Cutting digits off and stepping up on five or more rounds half away from zero. */
  lemma CutRounds(digits: string, cut: nat)
    requires AllDigits(digits) && cut < |digits|
    ensures var kept := Value(digits[..cut]);
            IsHalfAway(Value(digits), Pow10(|digits| - cut), if digits[cut] >= '5' then kept + 1 else kept)
  {
    hide Value, Pow10, IsHalfAway;
    var tail := digits[cut..];
    assert digits == digits[..cut] + tail;
    ValueConcat(digits[..cut], tail);
    TailHalf(tail);
    ValueBound(tail);
    Halves(Value(digits[..cut]), Value(tail), Pow10(|tail|));
  }

  lemma TailHalf(tail: string)
    requires AllDigits(tail) && tail != []
    ensures tail[0] >= '5' ==> 2 * Value(tail) >= Pow10(|tail|)
    ensures tail[0] < '5' ==> 2 * Value(tail) < Pow10(|tail|)
  {
    DecimalText.TailAgainstHalf(tail);
  }

  lemma Halves(kept: nat, r: nat, p: nat)
    requires r < p
    ensures 2 * r >= p ==> IsHalfAway(kept * p + r, p, kept + 1)
    ensures 2 * r < p ==> IsHalfAway(kept * p + r, p, kept)
  {
    var x := kept * p;
    assert (2 * (kept + 1) - 1) * p == 2 * x + p && (2 * (kept + 1) + 1) * p == 2 * x + 3 * p;
    assert (2 * kept - 1) * p == 2 * x - p && (2 * kept + 1) * p == 2 * x + p;
  }

  /** The number the kept digits write is the requested rounding of a hundred times the value. */
  lemma RoundedIsHalfAway(p: Plain, fractionDigits: nat)
    requires p.Valid()
    ensures var s := RoundedDigits(p.whole, p.Fraction(), fractionDigits);
            && AllDigits(s) && |s| >= |p.whole| + 2 + fractionDigits
            && IsHalfAway(p.Digits() * 100 * Pow10(fractionDigits), Pow10(|p.Fraction()|), Value(s))
  {
    hide Value, Pow10, IsHalfAway, NatText, PadEnd, PadStart;
    var f := p.Fraction();
    var e := PadEnd(f, fractionDigits + 3);
    var digits, cut := p.whole + e, |p.whole| + 2 + fractionDigits;
    PadEndValue(p.whole, f, fractionDigits + 3);
    CutRounds(digits, cut);
    var kept := digits[..cut];
    PadStartValue(Value(kept) + 1, |kept|);
    PowersMeet(|e|, |f|, fractionDigits);
    Unscale(p.Digits(), Pow10(|e| - |f|), Pow10(|f|), Pow10(|e| - 2 - fractionDigits), Pow10(fractionDigits),
            if digits[cut] >= '5' then Value(kept) + 1 else Value(kept));
  }

  lemma PowersMeet(e: nat, f: nat, fractionDigits: nat)
    requires e >= f && e >= fractionDigits + 2
    ensures Pow10(e - f) * Pow10(f) == Pow10(e - 2 - fractionDigits) * (100 * Pow10(fractionDigits))
  {
    hide Pow10;
    PowAdds(e - f, f);
    PowAdds(e - 2 - fractionDigits, 2 + fractionDigits);
    PowAdds(2, fractionDigits);
    PowUnfold(2); PowUnfold(1); PowZero();
  }

  lemma PowZero()
    ensures Pow10(0) == 1
  {
  }

  lemma PadStartValue(n: nat, width: nat)
    ensures var s := PadStart(NatText(n), width);
            AllDigits(s) && |s| >= width && Value(s) == n
  {
    hide Value, NatText, Repeat;
    NatTextValue(n);
    if |NatText(n)| < width { ZerosAhead(width - |NatText(n)|, NatText(n)); }
  }

  /** If a and b are the powers with a*f == b*100*g, rounding v*a by b rounds v*100*g by f. */
  lemma Unscale(v: int, a: int, f: int, b: int, g: int, q: int)
    requires a >= 1 && f >= 1 && b >= 1 && g >= 1 && a * f == b * (100 * g)
    requires IsHalfAway(v * a, b, q)
    ensures IsHalfAway(v * 100 * g, f, q)
  {
    // Both sides of each bound are scaled by f and the common factor b is cancelled.
    ScaleBound((2 * q - 1) * b, 2 * (v * a), f);
    ScaleBound(2 * (v * a), (2 * q + 1) * b, f);
    var n := 2 * (v * 100 * g);
    assert 2 * (v * a) * f == n * b by { Exchange(v, a, f, b, g); }
    assert (2 * q - 1) * b * f == ((2 * q - 1) * f) * b;
    assert (2 * q + 1) * b * f == ((2 * q + 1) * f) * b;
    Cancel((2 * q - 1) * f, n, b);
    Cancel(n, (2 * q + 1) * f, b);
  }

  lemma Exchange(v: int, a: int, f: int, b: int, g: int)
    requires a * f == b * (100 * g)
    ensures 2 * (v * a) * f == 2 * (v * 100 * g) * b
  {
    assert 2 * (v * a) * f == 2 * v * (a * f);
    assert 2 * v * (b * (100 * g)) == 2 * (v * 100 * g) * b;
  }

  lemma ScaleBound(x: int, y: int, k: nat)
    requires k >= 1
    ensures x <= y ==> x * k <= y * k
    ensures x < y ==> x * k < y * k
  {
  }

  lemma Cancel(x: int, y: int, k: nat)
    requires k >= 1
    ensures x * k <= y * k ==> x <= y
    ensures x * k < y * k ==> x < y
  {
  }

  // ---- The printed shape ----------------------------------------------------------------------

  lemma {:induction false} DroppedIsCanonical(s: string)
    requires AllDigits(s) && s != []
    ensures DropLeadingZeros(s) == NatText(Value(s))
    decreases |s|
  {
    hide Value, NatText, Pow10;
    if |s| > 1 && s[0] == '0' {
      LeadingDigit(s);
      DroppedIsCanonical(s[1..]);
    } else {
      CanonicalText(s);
    }
  }

  lemma SplitValue(s: string, k: nat)
    requires AllDigits(s) && k <= |s|
    ensures var split := |s| - k;
            Value(s[..split]) == Whole(Value(s), k) && Value(s[split..]) == Part(Value(s), k)
  {
    hide Value, Pow10, Quot, Rem;
    SplitSum(s, k);
    Quotient(Value(s), Value(s[..|s| - k]), Pow10(k), Value(s[|s| - k..]));
  }

  lemma SplitSum(s: string, k: nat)
    requires AllDigits(s) && k <= |s|
    ensures var split := |s| - k;
            Value(s) == Value(s[..split]) * Pow10(k) + Value(s[split..]) && Value(s[split..]) < Pow10(k)
  {
    hide Value, Pow10;
    var split := |s| - k;
    ValueConcat(s[..split], s[split..]);
    assert s == s[..split] + s[split..];
    ValueBound(s[split..]);
  }

  lemma Quotient(n: nat, q: nat, d: nat, r: nat)
    requires n == q * d + r && r < d
    ensures Quot(n, d) == q && Rem(n, d) == r
  {
    var q', r' := n / d, n % d;
    assert q' * d + r' == n;
    if q' < q { Strict(q' + 1, q, d); } else if q' > q { Strict(q + 1, q', d); }
  }

  lemma WholeAndPart(n: nat, fractionDigits: nat)
    ensures n == 0 <==> Whole(n, fractionDigits) == 0 && (fractionDigits > 0 ==> Part(n, fractionDigits) == 0)
  {
    PowZero();
    var scale := Pow10(fractionDigits);
    assert fractionDigits == 0 ==> scale == 1;
    hide Pow10;
    assert n == (n / scale) * scale + n % scale;
  }

  lemma ZeroTextMeans(whole: nat, decimals: string)
    requires AllDigits(decimals)
    ensures ZeroText(NatText(whole)) <==> whole == 0
    ensures ZeroText(NatText(whole) + "." + decimals) <==> whole == 0 && Value(decimals) == 0
  {
    NatTextLeads(whole);
    NatTextValue(whole);
    ValueIsZero(decimals);
    var integer := NatText(whole);
    assert whole == 0 ==> integer == "0";
    hide NatText, Value;
    var printed := integer + "." + decimals;
    assert |printed| == |integer| + 1 + |decimals|;
    if whole == 0 {
      assert forall i :: 0 <= i < |decimals| ==> printed[i + 2] == decimals[i];
      assert forall i :: 2 <= i < |printed| ==> printed[i] == decimals[i - 2];
    }
  }

  /** The percentage printer: for every decimal text and digit count, what is printed
      is N units of the last place, where N is a hundred times the magnitude rounded
      half away from zero there; with no redundant leading zero, every digit asked
      for, and a minus sign exactly when the value is negative and N is not zero. */
  lemma PercentIsRounding(p: Plain, fractionDigits: nat, n: nat)
    requires p.Valid() && IsHalfAway(p.Digits() * 100 * Pow10(fractionDigits), Pow10(|p.Fraction()|), n)
    ensures PercentOf(p, fractionDigits) == (if p.negative && n != 0 then "-" else "") + PercentText(n, fractionDigits)
  {
    var s := RoundedDigits(p.whole, p.Fraction(), fractionDigits);
    RoundedIsHalfAway(p, fractionDigits);
    HalfAwayUnique(p.Digits() * 100 * Pow10(fractionDigits), Pow10(|p.Fraction()|), n, Value(s));
    hide RoundedDigits, IsHalfAway, Print, Value, Pow10, PercentText;
    PrintMeans(p.negative, s, fractionDigits);
  }

  lemma PrintMeans(negative: bool, s: string, fractionDigits: nat)
    requires AllDigits(s) && |s| > fractionDigits
    ensures Print(negative, s, fractionDigits)
         == (if negative && Value(s) != 0 then "-" else "") + PercentText(Value(s), fractionDigits)
  {
    BetweenMeans(s, fractionDigits);
    hide Between, ZeroText, Value, PercentText, AllDigits;
    Associates(if negative && Value(s) != 0 then "-" else "", Between(s, fractionDigits), "%");
  }

  lemma BetweenMeans(s: string, fractionDigits: nat)
    requires AllDigits(s) && |s| > fractionDigits
    ensures ZeroText(Between(s, fractionDigits)) <==> Value(s) == 0
    ensures Between(s, fractionDigits) + "%" == PercentText(Value(s), fractionDigits)
  {
    hide Value, DropLeadingZeros, ZeroText, Whole, Part, PercentText, Joined;
    var split := |s| - fractionDigits;
    SplitValue(s, fractionDigits);
    Assembled(s[..split], s[split..], Value(s), fractionDigits);
  }

  lemma Assembled(integer: string, decimals: string, n: nat, fractionDigits: nat)
    requires AllDigits(integer) && integer != [] && Value(integer) == Whole(n, fractionDigits)
    requires AllDigits(decimals) && |decimals| == fractionDigits && Value(decimals) == Part(n, fractionDigits)
    ensures var printed := Joined(DropLeadingZeros(integer), decimals, fractionDigits);
            (ZeroText(printed) <==> n == 0) && printed + "%" == PercentText(n, fractionDigits)
  {
    hide Value, Padded, NatText, ZeroText, Whole, Part, Pow10, PercentText, DropLeadingZeros;
    DroppedIsCanonical(integer);
    WholeAndPart(n, fractionDigits);
    ZeroTextMeans(Whole(n, fractionDigits), decimals);
    if fractionDigits > 0 {
      PaddedText(decimals, fractionDigits);
      WithPoint(n, fractionDigits, decimals);
    } else {
      WithoutPoint(n);
    }
  }

  lemma WithPoint(n: nat, fractionDigits: nat, decimals: string)
    requires fractionDigits > 0 && decimals == Padded(Part(n, fractionDigits), fractionDigits)
    ensures PercentText(n, fractionDigits) == NatText(Whole(n, fractionDigits)) + "." + decimals + "%"
  {
    hide Padded, NatText, Whole, Part;
    Associates(NatText(Whole(n, fractionDigits)), ".", decimals);
  }

  lemma WithoutPoint(n: nat)
    ensures PercentText(n, 0) == NatText(Whole(n, 0)) + "%"
  {
    hide NatText, Whole, Part;
    assert NatText(Whole(n, 0)) + "" == NatText(Whole(n, 0));
  }

  // ---- On any text ----------------------------------------------------------------------------

  /** formatDecimal: a text that is not a decimal is shown as it is. */
  function FormatDecimalText(value: string, minimumFractionDigits: nat): string {
    var p := Match(value);
    if p.None? then value else FormatDecimal(p.value, minimumFractionDigits).Text()
  }

  /** formatDecimalPercent: likewise. */
  function FormatDecimalPercent(value: string, fractionDigits: nat): string {
    var p := Match(value);
    if p.None? then value
    else
      MatchMeans(value, p.value);
      PercentOf(p.value, fractionDigits)
  }

  /** On the text itself: a decimal prints as its percentage, a hundred times its value rounded half
      away from zero. */
  lemma PercentOfText(value: string, p: Plain, fractionDigits: nat, n: nat)
    requires p.Valid() && p.Text() == value
    requires IsHalfAway(p.Digits() * 100 * Pow10(fractionDigits), Pow10(|p.Fraction()|), n)
    ensures FormatDecimalPercent(value, fractionDigits)
            == (if p.negative && n != 0 then "-" else "") + PercentText(n, fractionDigits)
  {
    MatchMeans(value, p);
    hide *;
    PercentIsRounding(p, fractionDigits, n);
    hide PercentText;
    PercentOfMatch(value, p, fractionDigits);
  }

  lemma PercentOfMatch(value: string, p: Plain, fractionDigits: nat)
    requires p.Valid() && Match(value) == Some(p)
    ensures FormatDecimalPercent(value, fractionDigits) == PercentOf(p, fractionDigits)
  {
    hide Match, PercentOf;
  }

  /** And any other text is left as it is, by both printers. */
  lemma OtherTextStays(value: string, digits: nat)
    requires forall p: Plain :: p.Valid() ==> p.Text() != value
    ensures FormatDecimalPercent(value, digits) == value && FormatDecimalText(value, digits) == value
  {
    hide PercentOf, FormatDecimal, Match;
    if Match(value).Some? { MatchMeans(value, Match(value).value); }
  }

  /** Formatting again changes nothing more: what is printed is itself a decimal already trimmed. */
  lemma FormatTwice(value: string, minimum: nat)
    ensures FormatDecimalText(FormatDecimalText(value, minimum), minimum) == FormatDecimalText(value, minimum)
  {
    if p :| Match(value) == Some(p) {
      MatchMeans(value, p);
      var r := FormatDecimal(p, minimum);
      FormatKeepsValue(p, minimum);
      MatchMeans(r.Text(), r);
      TrimmedZeros(p.Fraction());
      TrimAgain(TrimTrailingZeros(p.Fraction()), if |TrimTrailingZeros(p.Fraction())| < minimum
                                                  then minimum - |TrimTrailingZeros(p.Fraction())| else 0);
      assert r.Fraction() == PadEnd(TrimTrailingZeros(p.Fraction()), minimum);
    }
  }

  lemma {:induction false} TrimAgain(t: string, n: nat)
    requires AllDigits(t) && (t != [] ==> t[|t| - 1] != '0')
    ensures TrimTrailingZeros(t + Repeat('0', n)) == t
  {
    var s := t + Repeat('0', n);
    if n > 0 {
      assert s[..|s| - 1] == t + Repeat('0', n - 1);
      TrimAgain(t, n - 1);
    } else {
      assert s == t;
    }
  }
}

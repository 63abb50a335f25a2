/** The feature engine's renderer: half-even rounding done on a digit buffer. */
module FeatureRounding {
  import opened Prelude
  import opened Decimal
  import opened Digits
  import opened DecimalText

  /** The shortest plain decimal of a finite float: digits with no redundant leading
      zero, and a point only when digits follow it. */
  ghost predicate Canonical(integer: string, fraction: Option<string>) {
    && WellFormed(integer, fraction)
    && |integer| >= 1 && (|integer| > 1 ==> integer[0] != '0')
    && (fraction.Some? ==> fraction.value != [])
  }

  function Successor(c: char): char
    requires IsDigit(c) && c != '9'
  {
    (c as int + 1) as char
  }

  /** Adding one in place: trailing nines become zeros and the digit before them steps up. */
  lemma CarryAddsOne(before: string, i: int)
    requires AllDigits(before) && -1 <= i < |before|
    requires forall j :: i < j < |before| ==> before[j] == '9'
    ensures i >= 0 && before[i] != '9' ==>
              var after := before[..i] + [Successor(before[i])] + Repeat('0', |before| - i - 1);
              AllDigits(after) && Value(after) == Value(before) + 1
    ensures i < 0 ==>
              var after := ['1'] + Repeat('0', |before|);
              AllDigits(after) && Value(after) == Value(before) + 1
  {
    hide Value, Pow10;
    var k := |before| - i - 1;
    assert before[i + 1..] == Repeat('9', k);
    if i < 0 {
      assert before == before[i + 1..];
      NinesOverflow(k);
    } else if before[i] != '9' {
      assert before == before[..i] + [before[i]] + before[i + 1..];
      StepUp(before[..i], before[i], k);
    }
  }

  lemma NinesOverflow(k: nat)
    ensures AllDigits(Repeat('9', k)) && AllDigits(['1'] + Repeat('0', k))
    ensures Value(['1'] + Repeat('0', k)) == Value(Repeat('9', k)) + 1
  {
    hide Value, Pow10;
    ValueNines(k);
    ValueZeros(k);
    ValueConcat(['1'], Repeat('0', k));
    ValueSingle(['1']);
  }

  lemma StepUp(head: string, c: char, k: nat)
    requires AllDigits(head) && IsDigit(c) && c != '9'
    ensures AllDigits(head + [c] + Repeat('9', k)) && AllDigits(head + [Successor(c)] + Repeat('0', k))
    ensures Value(head + [Successor(c)] + Repeat('0', k)) == Value(head + [c] + Repeat('9', k)) + 1
  {
    hide Value, Pow10;
    ValueNines(k);
    ValueZeros(k);
    ValueConcat(head + [c], Repeat('9', k));
    ValueConcat(head + [Successor(c)], Repeat('0', k));
    ValueUnfold(head + [c]);
    ValueUnfold(head + [Successor(c)]);
    assert (head + [c])[..|head|] == head == (head + [Successor(c)])[..|head|];
    OneMore(Value(head + [c]), Pow10(k));
  }

  lemma OneMore(v: nat, p: nat)
    ensures (v + 1) * p == v * p + p
  {
  }

  /** Adds one to the number a digit buffer writes, growing it by a leading one when it is all nines. */
  method CarryInPlace(digits: array<char>) returns (grown: bool)
    requires AllDigits(digits[..])
    modifies digits
    ensures AllDigits(digits[..])
    ensures grown ==> AllDigits(['1'] + digits[..]) && Value(['1'] + digits[..]) == Value(old(digits[..])) + 1
    ensures !grown ==> Value(digits[..]) == Value(old(digits[..])) + 1
    ensures !grown ==> digits.Length > 0 && (digits[0] == '0' ==> old(digits[0]) == '0')
    ensures grown ==> forall j :: 0 <= j < digits.Length ==> old(digits[j]) == '9'
  {
    ghost var before := digits[..];
    var i := digits.Length - 1;
    while i >= 0 && digits[i] == '9'
      invariant -1 <= i < digits.Length
      invariant digits[..i + 1] == before[..i + 1]
      invariant forall j :: i < j < digits.Length ==> digits[j] == '0' && before[j] == '9'
    {
      digits[i] := '0';
      i := i - 1;
    }
    CarryAddsOne(before, i);
    if i < 0 {
      assert digits[..] == Repeat('0', |before|);
      grown := true;
    } else {
      assert digits[i] == before[..i + 1][i];
      digits[i] := Successor(digits[i]);
      assert digits[..i] == before[..i];
      assert digits[..] == before[..i] + [Successor(before[i])] + Repeat('0', |before| - i - 1);
      grown := false;
    }
  }

  /** The digits Round keeps before it decides whether to step them up. */
  function Kept(integer: string, f: string): string {
    if |f| <= PLACES then integer + f + Repeat('0', PLACES - |f|) else integer + f[..PLACES]
  }

  function Steps(kept: string, f: string): bool
    requires kept != [] && AllDigits(kept)
  {
    |f| > PLACES && RoundsUp(f[PLACES..], DigitOf(kept[|kept| - 1]) % 2 == 1)
  }

  lemma LastDigitParity(s: string)
    requires AllDigits(s) && s != []
    ensures Value(s) % 2 == DigitOf(s[|s| - 1]) % 2
  {
    hide Value, DigitOf;
    ValueUnfold(s);
    TenfoldParity(Value(s[..|s| - 1]), DigitOf(s[|s| - 1]));
  }

  lemma TenfoldParity(x: nat, d: nat)
    ensures (10 * x + d) % 2 == d % 2
  {
    assert 10 * x + d == 2 * (5 * x) + d;
  }

  /** What ParseDec reads off the same text, in terms of the kept digits. */
  lemma ParseByDigits(negative: bool, integer: string, fraction: Option<string>)
    requires Canonical(integer, fraction)
    ensures var f := FractionOf(fraction);
            var kept := Kept(integer, f);
            && kept != [] && AllDigits(kept)
            && var magnitude: int := if Steps(kept, f) then Value(kept) + 1 else Value(kept);
               ParseDec(Written(if negative then Minus else Unsigned, integer, fraction))
               == Ok(if negative then -magnitude else magnitude)
  {
    hide Value, TrimSpace, TrimPrefix, Written, Cut;
    var f := FractionOf(fraction);
    var kept := Kept(integer, f);
    ValueZeros(if |f| <= PLACES then PLACES - |f| else 0);
    StripSign(if negative then Minus else Unsigned, integer, fraction);
    CutDecimal(integer, fraction);
    SetStringDigits(kept);
    LastDigitParity(kept);
  }

  lemma RenderDigits(magnitude: nat, negative: bool, digits: string)
    requires AllDigits(digits) && Value(digits) == magnitude && |digits| > PLACES
    requires |digits| > PLACES + 1 ==> digits[0] != '0'
    ensures var split := |digits| - PLACES;
            var d: int := magnitude;
            Render(if negative then -d else d)
            == (if negative && magnitude > 0 then "-" else "") + (digits[..split] + "." + digits[split..])
  {
    hide Value, Padded, AllDigits;
    PaddedText(digits, PLACES + 1);
    var size: int := magnitude;
    RenderPadded(if negative then -size else size);
  }

  lemma RenderPadded(d: int)
    ensures var digits := Padded(Abs(d), PLACES + 1);
            var split := |digits| - PLACES;
            Render(d) == (if d < 0 then "-" else "") + (digits[..split] + "." + digits[split..])
  {
    hide Padded;
    var digits := Padded(Abs(d), PLACES + 1);
    var split := |digits| - PLACES;
    Prefixed(if d < 0 then "-" else "", digits[..split], digits[split..]);
  }

  lemma Prefixed(sign: string, a: string, b: string)
    ensures sign + a + "." + b == sign + (a + "." + b)
  {
  }

  /** Trimming zeros and points off a rendering leaves something exactly when the value is not zero. */
  predicate OnlyZerosAndPoints(s: string) {
    forall i :: 0 <= i < |s| ==> s[i] == '0' || s[i] == '.'
  }

  lemma OnlyInBoth(a: string, b: string)
    ensures OnlyZerosAndPoints(a + b) <==> OnlyZerosAndPoints(a) && OnlyZerosAndPoints(b)
  {
    if OnlyZerosAndPoints(a + b) {
      assert forall i :: 0 <= i < |a| ==> a[i] == (a + b)[i];
      assert forall i :: 0 <= i < |b| ==> b[i] == (a + b)[|a| + i];
    }
  }

  lemma NoNegativeZero(digits: string, split: nat)
    requires AllDigits(digits) && split <= |digits|
    ensures OnlyZerosAndPoints(digits[..split] + "." + digits[split..]) <==> Value(digits) == 0
  {
    ValueIsZero(digits);
    hide Value;
    assert OnlyZerosAndPoints(digits) <==> Value(digits) == 0;
    assert OnlyZerosAndPoints(".");
    hide AllDigits, OnlyZerosAndPoints;
    var a, b := digits[..split], digits[split..];
    assert a + b == digits;
    OnlyInBoth(a, b);
    OnlyInBoth(a, ".");
    OnlyInBoth(a + ".", b);
  }

  /** Round on the shortest decimal text of a float: the digit buffer, its carry and
      its sign give the very string that parsing and rendering the text gives. */
  method Round(negative: bool, integer: string, fraction: Option<string>) returns (result: string)
    requires Canonical(integer, fraction)
    ensures var parsed := ParseDec(Written(if negative then Minus else Unsigned, integer, fraction));
            parsed.Ok? && result == Render(parsed.value)
  {
    hide Value, ParseDec, Written, Render, Padded;
    var f := FractionOf(fraction);
    ghost var kept := Kept(integer, f);
    ParseByDigits(negative, integer, fraction);
    var text: string;
    if |f| <= PLACES {
      text := integer + f + Repeat('0', PLACES - |f|);
    } else {
      text := integer + f[..PLACES];
      var tail := f[PLACES..];
      var up := tail[0] > '5';
      if tail[0] == '5' {
        up := !AllZeros(tail[1..]) || DigitOf(text[|text| - 1]) % 2 == 1;
      }
      if up {
        text := Stepped(text);
      }
    }
    ghost var magnitude: nat := if Steps(kept, f) then Value(kept) + 1 else Value(kept);
    RenderDigits(magnitude, negative, text);
    var split := |text| - PLACES;
    NoNegativeZero(text, split);
    result := text[..split] + "." + text[split..];
    if negative && !OnlyZerosAndPoints(result) {
      result := "-" + result;
    }
  }

  /** The kept digits, plus one in the last place. */
  method Stepped(text: string) returns (stepped: string)
    requires AllDigits(text) && |text| > PLACES && (|text| > PLACES + 1 ==> text[0] != '0')
    ensures AllDigits(stepped) && Value(stepped) == Value(text) + 1
    ensures |stepped| > PLACES && (|stepped| > PLACES + 1 ==> stepped[0] != '0')
  {
    hide Value;
    var digits := new char[|text|](i requires 0 <= i < |text| => text[i]);
    assert digits[..] == text;
    var grown := CarryInPlace(digits);
    stepped := if grown then ['1'] + digits[..] else digits[..];
  }
}

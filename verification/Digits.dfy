/** Strings of decimal digits and the numbers they write. */
module Digits {

  predicate IsDigit(c: char) {
    '0' <= c <= '9'
  }

  predicate AllDigits(s: string) {
    forall i :: 0 <= i < |s| ==> IsDigit(s[i])
  }

  function DigitOf(c: char): nat
    requires IsDigit(c)
  {
    c as int - '0' as int
  }

  function DigitChar(d: nat): char
    requires d < 10
  {
    ('0' as int + d) as char
  }

  function Pow10(n: nat): (p: nat)
    ensures p >= 1
  {
    if n == 0 then 1 else 10 * Pow10(n - 1)
  }

  /** The number a digit string writes; leading zeros and the empty string write nothing. */
  function Value(s: string): nat
    requires AllDigits(s)
  {
    if s == [] then 0 else 10 * Value(s[..|s| - 1]) + DigitOf(s[|s| - 1])
  }

  function Repeat(c: char, n: nat): (s: string)
    ensures |s| == n && forall i :: 0 <= i < n ==> s[i] == c
  {
    if n == 0 then [] else Repeat(c, n - 1) + [c]
  }

  /** A number's digits with no redundant leading zero. */
  function NatText(n: nat): (s: string)
    ensures |s| >= 1 && AllDigits(s)
  {
    if n < 10 then [DigitChar(n)] else NatText(n / 10) + [DigitChar(n % 10)]
  }

  // ---- Powers ----------------------------------------------------------------------------------

  lemma {:induction false} PowAdds(m: nat, n: nat)
    ensures Pow10(m + n) == Pow10(m) * Pow10(n)
  {
    if n > 0 { PowAdds(m, n - 1); }
  }

  // ---- Values ----------------------------------------------------------------------------------

  lemma {:induction false} ValueConcat(a: string, b: string)
    requires AllDigits(a) && AllDigits(b)
    ensures AllDigits(a + b) && Value(a + b) == Value(a) * Pow10(|b|) + Value(b)
    decreases |b|
  {
    if b == [] {
      assert a + b == a;
    } else {
      var last := |b| - 1;
      ValueConcat(a, b[..last]);
      assert (a + b)[..|a + b| - 1] == a + b[..last];
      hide Value, Pow10;
      ValueUnfold(a + b);
      ValueUnfold(b);
      PowUnfold(|b|);
      Shift(Value(a), Value(b[..last]), Pow10(last), DigitOf(b[last]));
    }
  }

  lemma ValueUnfold(s: string)
    requires AllDigits(s) && s != []
    ensures Value(s) == 10 * Value(s[..|s| - 1]) + DigitOf(s[|s| - 1])
  {
  }

  lemma PowUnfold(n: nat)
    requires n > 0
    ensures Pow10(n) == 10 * Pow10(n - 1)
  {
  }

  lemma Shift(x: nat, y: nat, p: nat, d: nat)
    ensures 10 * (x * p + y) + d == x * (10 * p) + (10 * y + d)
  {
  }

  lemma {:induction false} ValueZeros(n: nat)
    ensures AllDigits(Repeat('0', n)) && Value(Repeat('0', n)) == 0
  {
    if n > 0 {
      ValueZeros(n - 1);
      assert Repeat('0', n)[..n - 1] == Repeat('0', n - 1);
    }
  }

  lemma {:induction false} ValueNines(n: nat)
    ensures AllDigits(Repeat('9', n)) && Value(Repeat('9', n)) == Pow10(n) - 1
  {
    if n > 0 {
      ValueNines(n - 1);
      assert Repeat('9', n)[..n - 1] == Repeat('9', n - 1);
    }
  }

  lemma {:induction false} ValueBound(s: string)
    requires AllDigits(s)
    ensures Value(s) < Pow10(|s|)
    decreases |s|
  {
    if s != [] { ValueBound(s[..|s| - 1]); }
  }

  /** A digit string writes zero exactly when it is all zeros. */
  lemma {:induction false} ValueIsZero(s: string)
    requires AllDigits(s)
    ensures Value(s) == 0 <==> forall i :: 0 <= i < |s| ==> s[i] == '0'
    decreases |s|
  {
    if s != [] {
      ValueIsZero(s[..|s| - 1]);
      if Value(s) == 0 {
        assert forall i :: 0 <= i < |s| ==> s[i] == (if i < |s| - 1 then s[..|s| - 1][i] else s[|s| - 1]);
      }
    }
  }

  /** The leading digit fixes the value to within its own unit. */
  lemma LeadingDigit(s: string)
    requires AllDigits(s) && s != []
    ensures var d, p := DigitOf(s[0]), Pow10(|s| - 1);
            Value(s) == d * p + Value(s[1..]) && Value(s[1..]) < p && d * p <= Value(s) < (d + 1) * p
  {
    hide Value, Pow10, DigitOf;
    ValueConcat(s[..1], s[1..]);
    assert s[..1] + s[1..] == s;
    ValueSingle(s[..1]);
    ValueBound(s[1..]);
    Bracket(DigitOf(s[0]), Pow10(|s| - 1), Value(s[1..]));
  }

  lemma ValueSingle(s: string)
    requires AllDigits(s) && |s| == 1
    ensures Value(s) == DigitOf(s[0])
  {
    assert s[..0] == [];
  }

  lemma Bracket(d: nat, p: nat, r: nat)
    requires r < p
    ensures d * p <= d * p + r < (d + 1) * p
  {
  }

  // ---- Canonical text --------------------------------------------------------------------------

  lemma {:induction false} NatTextValue(n: nat)
    ensures Value(NatText(n)) == n
  {
    if n < 10 {
      assert NatText(n)[..0] == [];
    } else {
      NatTextValue(n / 10);
      assert NatText(n)[..|NatText(n)| - 1] == NatText(n / 10);
    }
  }

  lemma {:induction false} NatTextLeads(n: nat)
    ensures |NatText(n)| > 1 ==> NatText(n)[0] != '0'
    ensures n > 0 ==> NatText(n)[0] != '0'
  {
    if n >= 10 {
      NatTextLeads(n / 10);
      assert NatText(n)[0] == NatText(n / 10)[0];
    }
  }

  lemma {:induction false} NatTextLength(n: nat, k: nat)
    ensures |NatText(n)| <= k + 1 <==> n < Pow10(k + 1)
  {
    if k == 0 {
      assert Pow10(1) == 10 * Pow10(0) == 10;
    } else if n >= 10 {
      NatTextLength(n / 10, k - 1);
      assert n / 10 < Pow10(k) <==> n < 10 * Pow10(k);
    }
  }

  /** A digit string without a redundant leading zero is the text of its value. */
  lemma {:induction false} CanonicalText(s: string)
    requires AllDigits(s) && |s| >= 1 && (|s| > 1 ==> s[0] != '0')
    ensures s == NatText(Value(s))
    decreases |s|
  {
    var last := |s| - 1;
    if last == 0 {
      assert s[..0] == [];
      assert s == [s[0]];
    } else {
      CanonicalText(s[..last]);
      LeadingAtLeastOne(s[..last]);
      ValueUnfold(s);
      hide Value;
      assert Value(s) / 10 == Value(s[..last]) && Value(s) % 10 == DigitOf(s[last]);
      assert s == s[..last] + [s[last]];
    }
  }

  lemma LeadingAtLeastOne(s: string)
    requires AllDigits(s) && s != [] && s[0] != '0'
    ensures Value(s) >= Pow10(|s| - 1) >= 1
  {
    LeadingDigit(s);
    assert DigitOf(s[0]) >= 1;
    hide Value, Pow10, DigitOf;
    AtLeastOneUnit(DigitOf(s[0]), Pow10(|s| - 1));
  }

  lemma AtLeastOneUnit(d: nat, p: nat)
    requires d >= 1
    ensures d * p >= p
  {
  }

  /** Two digit strings of one length and one value are one string. */
  lemma {:induction false} SameLengthSameText(a: string, b: string)
    requires AllDigits(a) && AllDigits(b) && |a| == |b| && Value(a) == Value(b)
    ensures a == b
    decreases |a|
  {
    if a != [] {
      var last := |a| - 1;
      SameLengthSameText(a[..last], b[..last]);
      assert a == a[..last] + [a[last]] && b == b[..last] + [b[last]];
    }
  }

  /** A number's digits, padded with zeros to at least a width. */
  function Padded(n: nat, width: nat): (s: string)
    ensures AllDigits(s) && |s| >= width && |s| >= 1
  {
    var text := NatText(n);
    if |text| >= width then text else Repeat('0', width - |text|) + text
  }

  /** Leading zeros write nothing. */
  lemma ZerosAhead(n: nat, s: string)
    requires AllDigits(s)
    ensures AllDigits(Repeat('0', n) + s) && Value(Repeat('0', n) + s) == Value(s)
  {
    hide Value, Pow10, Repeat;
    ValueZeros(n);
    ValueConcat(Repeat('0', n), s);
  }

  lemma PaddedValue(n: nat, width: nat)
    ensures Value(Padded(n, width)) == n
  {
    hide Value, NatText, Repeat;
    var text := NatText(n);
    NatTextValue(n);
    if |text| < width { ZerosAhead(width - |text|, text); }
  }

  /** A string at least that wide, with no redundant zero beyond the width, is the padded text of its value. */
  lemma PaddedText(s: string, width: nat)
    requires AllDigits(s) && |s| >= width >= 1 && (|s| > width ==> s[0] != '0')
    ensures s == Padded(Value(s), width)
  {
    var n := Value(s);
    PaddedValue(n, width);
    if |s| > width {
      CanonicalText(s);
    } else {
      ValueBound(s);
      NatTextLength(n, width - 1);
      SameLengthSameText(s, Padded(n, width));
    }
  }
}

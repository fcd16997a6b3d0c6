/** Decimal numerals of unbounded naturals, with the padding and stripping of zeros that
    decimal amounts are built from. */
module Numerals {

  predicate IsDigit(c: char) {
    '0' <= c <= '9'
  }

  predicate AllDigits(s: string) {
    forall i :: 0 <= i < |s| ==> IsDigit(s[i])
  }

  function DigitValue(c: char): nat
    requires IsDigit(c)
  {
    c as int - '0' as int
  }

  function DigitChar(n: nat): char
    requires n < 10
  {
    (n + '0' as int) as char
  }

  function Pow10(k: nat): (p: nat)
    ensures p > 0
  {
    if k == 0 then 1 else 10 * Pow10(k - 1)
  }

  /** `n.toString()`. */
  function Digits(n: nat): (s: string)
    ensures s != "" && AllDigits(s)
  {
    if n < 10 then [DigitChar(n)] else Digits(n / 10) + [DigitChar(n % 10)]
  }

  /** The value of a digit string; the empty string is 0. */
  function Value(s: string): nat
    requires AllDigits(s)
  {
    if s == "" then 0 else 10 * Value(s[..|s| - 1]) + DigitValue(s[|s| - 1])
  }

  function Zeros(k: nat): (s: string)
    ensures |s| == k && forall i :: 0 <= i < k ==> s[i] == '0'
  {
    seq(k, i => '0')
  }

  /** `s.padStart(k, '0')`. */
  function PadStart(s: string, k: nat): (r: string)
    ensures AllDigits(s) ==> AllDigits(r)
  {
    if |s| < k then Zeros(k - |s|) + s else s
  }

  /** `s.padEnd(k, '0')`. */
  function PadEnd(s: string, k: nat): (r: string)
    ensures AllDigits(s) ==> AllDigits(r)
  {
    if |s| < k then s + Zeros(k - |s|) else s
  }

  /** `s.replace(/0+$/, '')`. */
  function StripEnd(s: string): (r: string)
    ensures |r| <= |s| && r == s[..|r|]
    ensures r != "" ==> r[|r| - 1] != '0'
    ensures forall i :: |r| <= i < |s| ==> s[i] == '0'
  {
    if s != "" && s[|s| - 1] == '0' then StripEnd(s[..|s| - 1]) else s
  }

  /** A non-empty digit string without its leading zeros; the last digit stays. */
  function StripStart(s: string): (r: string)
    ensures |r| <= |s| && r == s[|s| - |r|..]
  {
    if |s| > 1 && s[0] == '0' then StripStart(s[1..]) else s
  }

  // ---------------------------------------------------------------- values

  lemma {:induction false} ValueOfDigits(n: nat)
    ensures Value(Digits(n)) == n
    ensures Digits(n)[0] == '0' ==> n == 0
  {
    if n >= 10 {
      ValueOfDigits(n / 10);
      assert Digits(n)[..|Digits(n)| - 1] == Digits(n / 10);
    }
  }

  lemma {:induction false} ValueOfConcat(a: string, b: string)
    requires AllDigits(a) && AllDigits(b)
    ensures AllDigits(a + b) && Value(a + b) == Value(a) * Pow10(|b|) + Value(b)
  {
    if b == "" {
      assert a + b == a;
    } else {
      var c := b[..|b| - 1];
      ValueOfConcat(a, c);
      assert (a + b)[..|a + b| - 1] == a + c;
      assert 10 * (Value(a) * Pow10(|c|)) == Value(a) * Pow10(|b|);
    }
  }

  lemma {:induction false} ValueOfZeros(k: nat)
    ensures Value(Zeros(k)) == 0
  {
    if k > 0 {
      ValueOfZeros(k - 1);
      assert Zeros(k)[..k - 1] == Zeros(k - 1);
    }
  }

  lemma {:induction false} ValueBound(s: string)
    requires AllDigits(s)
    ensures Value(s) < Pow10(|s|)
  {
    if s != "" { ValueBound(s[..|s| - 1]); }
  }

  /** Digit strings of one length are determined by their value. */
  lemma {:induction false} ValueInjective(a: string, b: string)
    requires AllDigits(a) && AllDigits(b) && |a| == |b| && Value(a) == Value(b)
    ensures a == b
  {
    if a != "" {
      var n := |a| - 1;
      ValueInjective(a[..n], b[..n]);
      assert a == a[..n] + [a[n]] && b == b[..n] + [b[n]];
    }
  }

  lemma {:induction false} DigitsLength(n: nat, k: nat)
    requires k > 0 && n < Pow10(k)
    ensures |Digits(n)| <= k
  {
    if n >= 10 {
      assert k > 1;
      DigitsLength(n / 10, k - 1);
    }
  }

  lemma ValueOfPadStart(s: string, k: nat)
    requires AllDigits(s)
    ensures AllDigits(PadStart(s, k)) && Value(PadStart(s, k)) == Value(s)
  {
    if |s| < k {
      ValueOfZeros(k - |s|);
      ValueOfConcat(Zeros(k - |s|), s);
    }
  }

  /** A value below 10^k printed with at least one and exactly k digits. */
  lemma FixedWidth(n: nat, k: nat)
    requires k > 0 && n < Pow10(k)
    ensures |PadStart(Digits(n), k)| == k
    ensures AllDigits(PadStart(Digits(n), k)) && Value(PadStart(Digits(n), k)) == n
  {
    DigitsLength(n, k);
    ValueOfDigits(n);
    ValueOfPadStart(Digits(n), k);
  }

  /** It is the only digit string of that length and value. */
  lemma FixedWidthUnique(s: string)
    requires AllDigits(s) && s != ""
    ensures PadStart(Digits(Value(s)), |s|) == s
  {
    ValueBound(s);
    FixedWidth(Value(s), |s|);
    ValueInjective(PadStart(Digits(Value(s)), |s|), s);
  }

  lemma LeadingZero(s: string)
    requires AllDigits(s)
    ensures AllDigits("0" + s) && Value("0" + s) == Value(s)
  {
    ValueOfConcat("0", s);
    assert Value("0") == 0 by { assert "0"[..0] == ""; }
  }

  /** Printing the value of a non-empty digit string only drops leading zeros. */
  lemma {:induction false} DigitsOfValue(s: string)
    requires AllDigits(s) && s != ""
    ensures Digits(Value(s)) == StripStart(s)
    decreases |s|
  {
    if |s| > 1 && s[0] == '0' {
      assert s == "0" + s[1..];
      LeadingZero(s[1..]);
      DigitsOfValue(s[1..]);
    } else {
      LeadingDigit(s);
      FixedWidthUnique(s);
    }
  }

  lemma {:induction false} LeadingDigit(s: string)
    requires AllDigits(s) && s != "" && (|s| > 1 ==> s[0] != '0')
    ensures |Digits(Value(s))| >= |s|
  {
    if |s| > 1 {
      LeadingDigit(s[..|s| - 1]);
      LeadingNonZero(s[..|s| - 1]);
    }
  }

  lemma {:induction false} LeadingNonZero(s: string)
    requires AllDigits(s) && s != "" && s[0] != '0'
    ensures Value(s) > 0
  {
    if |s| > 1 { LeadingNonZero(s[..|s| - 1]); }
  }

  // ---------------------------------------------------------------- trailing zeros

  lemma StripThenPad(s: string)
    ensures s == StripEnd(s) + Zeros(|s| - |StripEnd(s)|)
  {}

  lemma StripPadded(s: string, k: nat)
    ensures StripEnd(s + Zeros(k)) == StripEnd(s)
  {
    var t := s + Zeros(k);
    var r, r' := StripEnd(s), StripEnd(t);
    assert forall i :: |r| <= i < |t| ==> t[i] == '0';
    assert r != "" ==> t[|r| - 1] != '0';
    assert r' != "" ==> t[|r'| - 1] != '0';
  }

  lemma PadThenStrip(s: string, k: nat)
    ensures StripEnd(PadEnd(s, k)) == StripEnd(s)
  {
    if |s| < k { StripPadded(s, k - |s|); }
  }

  lemma {:induction false} Pow10Sum(a: nat, b: nat)
    ensures Pow10(a + b) == Pow10(a) * Pow10(b)
  {
    if a > 0 {
      Pow10Sum(a - 1, b);
      assert 10 * (Pow10(a - 1) * Pow10(b)) == Pow10(a) * Pow10(b);
    }
  }
}

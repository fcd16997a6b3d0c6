/** Which texts the converter reads as amounts, in terms of the texts themselves, and what the texts
    that it prints look like. */
module AmountTexts {
  import opened Wrappers
  import opened Numerals
  import opened Networks
  import opened Rounding
  import opened Amounts

  // ---------------------------------------------------------------- spaces

  predicate Spaces(s: string) {
    forall i :: 0 <= i < |s| ==> IsSpace(s[i])
  }

  lemma {:induction false} TrimStartSplits(s: string) returns (a: string)
    ensures Spaces(a) && s == a + TrimStart(s)
    ensures TrimStart(s) != "" ==> !IsSpace(TrimStart(s)[0])
    decreases |s|
  {
    hide IsSpace;
    if s != "" && IsSpace(s[0]) {
      var rest := TrimStartSplits(s[1..]);
      a := [s[0]] + rest;
    } else {
      a := "";
    }
  }

  lemma {:induction false} TrimEndSplits(s: string) returns (b: string)
    ensures Spaces(b) && s == TrimEnd(s) + b
    ensures var t := TrimEnd(s); t != "" ==> !IsSpace(t[|t| - 1])
    decreases |s|
  {
    hide IsSpace;
    if s != "" && IsSpace(s[|s| - 1]) {
      var rest := TrimEndSplits(s[..|s| - 1]);
      b := rest + [s[|s| - 1]];
    } else {
      b := "";
    }
  }

  /** No space stands at either end. */
  predicate Tight(s: string) {
    s != "" ==> !IsSpace(s[0]) && !IsSpace(s[|s| - 1])
  }

  lemma TrimSplits(s: string) returns (a: string, b: string)
    ensures Spaces(a) && Spaces(b) && Tight(Trim(s)) && s == a + Trim(s) + b
  {
    hide IsSpace, TrimStart, TrimEnd;
    a := TrimStartSplits(s);
    b := TrimEndSplits(TrimStart(s));
    var t := TrimStart(s);
    assert Trim(s) != "" ==> Trim(s)[0] == t[0];
  }

  lemma {:induction false} TrimStartOf(a: string, s: string)
    requires Spaces(a) && (s == "" || !IsSpace(s[0]))
    ensures TrimStart(a + s) == s
    decreases |a|
  {
    hide IsSpace;
    if a == "" {
      assert a + s == s;
    } else {
      TrimStartOf(a[1..], s);
      assert (a + s)[1..] == a[1..] + s;
    }
  }

  lemma {:induction false} TrimEndOf(s: string, b: string)
    requires Spaces(b) && (s == "" || !IsSpace(s[|s| - 1]))
    ensures TrimEnd(s + b) == s
    decreases |b|
  {
    hide IsSpace;
    if b == "" {
      assert s + b == s;
    } else {
      TrimEndOf(s, b[..|b| - 1]);
      assert (s + b)[..|s + b| - 1] == s + b[..|b| - 1];
    }
  }

  lemma TrimOf(a: string, s: string, b: string)
    requires Spaces(a) && Spaces(b) && Tight(s)
    ensures Trim(a + s + b) == s
  {
    hide IsSpace, TrimStart, TrimEnd;
    if s == "" {
      assert a + s + b == (a + b) + "";
      TrimStartOf(a + b, "");
      TrimEndOf("", "");
      assert "" + "" == "";
    } else {
      assert a + s + b == a + (s + b);
      TrimStartOf(a, s + b);
      TrimEndOf(s, b);
    }
  }

  /** Spaces around an amount change nothing. */
  lemma SpacesDoNotMatter(a: string, amount: string, b: string, d: nat)
    requires Spaces(a) && Spaces(b)
    ensures ToBase(a + amount + b, d) == ToBase(amount, d)
  {
    hide IsSpace, Trim, Scientific, Split;
    var x, y := TrimSplits(amount);
    TrimOf(a + x, Trim(amount), y + b);
    assert a + amount + b == (a + x) + Trim(amount) + (y + b);
  }

  // ---------------------------------------------------------------- texts that are read

  /** `text` is an optional minus sign, digits, and perhaps a point and more digits. */
  predicate Writes(text: string, p: Parts) {
    && p.whole != "" && AllDigits(p.whole) && AllDigits(p.fraction)
    && text == (if p.negative then "-" else "") + p.whole + (if p.fraction == "" then "" else "." + p.fraction)
  }

  /** The same between spaces. */
  ghost predicate Reads(amount: string, p: Parts) {
    exists a, text, b :: Spaces(a) && Writes(text, p) && Spaces(b) && amount == a + text + b
  }

  lemma WrittenIsPrinted(text: string, p: Parts)
    ensures Writes(text, p) <==> WellFormed(p) && text == Printed(p)
  {
    hide AllDigits;
    var sign := if p.negative then "-" else "";
    if p.fraction != "" {
      assert sign + p.whole + ("." + p.fraction) == sign + (p.whole + "." + p.fraction);
    } else {
      assert sign + p.whole + "" == sign + p.whole;
    }
    assert !p.negative ==> sign + Joined(p.whole, p.fraction) == Joined(p.whole, p.fraction);
  }

  lemma {:induction false} PointIsThere(s: string)
    ensures PointIndex(s) < |s| ==> s == s[..PointIndex(s)] + "." + s[PointIndex(s) + 1..]
  {}

  /** What is split was printed from these parts. */
  lemma SplitIsPrinted(s: string)
    requires Split(s).Some?
    ensures WellFormed(Split(s).value) && Printed(Split(s).value) == s
  {
    var body := if s != "" && s[0] == '-' then s[1..] else s;
    PointIsThere(body);
    hide PointIndex, AllDigits;
    assert s != "" && s[0] == '-' ==> s == "-" + body;
  }

  lemma PrintedIsTight(p: Parts)
    requires WellFormed(p)
    ensures Tight(Printed(p))
  {
    var s := Printed(p);
    assert IsPlain(s[0]) && IsPlain(s[|s| - 1]);
  }

  /** A text reads as some parts if and only if it splits into them. */
  lemma ReadsIff(amount: string, p: Parts)
    ensures Reads(amount, p) <==> !Scientific(Trim(amount)) && Split(Trim(amount)) == Some(p)
  {
    hide IsSpace, Trim, Scientific, Split, Printed, Tight, WellFormed;
    if Reads(amount, p) {
      var a, text, b :| Spaces(a) && Writes(text, p) && Spaces(b) && amount == a + text + b;
      WrittenIsPrinted(text, p);
      PrintedIsTight(p);
      TrimOf(a, text, b);
      SplitPrinted(p);
    }
    if Split(Trim(amount)) == Some(p) {
      var a, b := TrimSplits(amount);
      SplitIsPrinted(Trim(amount));
      WrittenIsPrinted(Trim(amount), p);
    }
  }

  /** `s` ends in an exponent: a mark, perhaps a sign, and digits. */
  predicate Exponent(s: string, before: string, mark: string, sign: string, digits: string) {
    && mark in ["e", "E"] && sign in ["", "+", "-"] && digits != "" && AllDigits(digits)
    && s == before + mark + sign + digits
  }

  ghost predicate HasExponent(s: string) {
    exists before, mark, sign, digits :: Exponent(s, before, mark, sign, digits)
  }

  lemma {:induction false} SuffixIsDigits(s: string)
    ensures var k := |s| - DigitSuffix(s); AllDigits(s[k..]) && (k > 0 ==> !IsDigit(s[k - 1]))
  {
    if s != "" && IsDigit(s[|s| - 1]) {
      SuffixIsDigits(s[..|s| - 1]);
    }
  }

  lemma {:induction false} SuffixOf(s: string, digits: string)
    requires AllDigits(digits) && (s == "" || !IsDigit(s[|s| - 1]))
    ensures DigitSuffix(s + digits) == |digits|
    decreases |digits|
  {
    if digits == "" {
      assert s + digits == s;
    } else {
      SuffixOf(s, digits[..|digits| - 1]);
      assert (s + digits)[..|s + digits| - 1] == s + digits[..|digits| - 1];
    }
  }

  lemma ScientificHasExponent(s: string)
    requires Scientific(s)
    ensures HasExponent(s)
  {
    var k := |s| - DigitSuffix(s);
    SuffixIsDigits(s);
    hide DigitSuffix;
    var digits := s[k..];
    if IsExponentMark(s[k - 1]) {
      assert s == s[..k - 1] + [s[k - 1]] + "" + digits;
      assert Exponent(s, s[..k - 1], [s[k - 1]], "", digits);
    } else {
      assert s == s[..k - 2] + [s[k - 2]] + [s[k - 1]] + digits;
      assert Exponent(s, s[..k - 2], [s[k - 2]], [s[k - 1]], digits);
    }
  }

  lemma ExponentIsScientific(s: string, before: string, mark: string, sign: string, digits: string)
    requires Exponent(s, before, mark, sign, digits)
    ensures Scientific(s)
  {
    var head := before + mark + sign;
    assert head[|before|] == mark[0];
    assert sign != "" ==> head[|before| + 1] == sign[0];
    assert |head| == |before| + 1 + |sign|;
    SuffixOf(head, digits);
    hide DigitSuffix;
    assert s == head + digits;
    assert s[|head| - 1] == head[|head| - 1];
    assert |head| > 1 ==> s[|head| - 2] == head[|head| - 2];
  }

  lemma ScientificIff(s: string)
    ensures Scientific(s) <==> HasExponent(s)
  {
    hide Scientific;
    if Scientific(s) { ScientificHasExponent(s); }
    if HasExponent(s) {
      var before, mark, sign, digits :| Exponent(s, before, mark, sign, digits);
      ExponentIsScientific(s, before, mark, sign, digits);
    }
  }

  /** The amount ends in an exponent, spaces aside. */
  ghost predicate Exponential(amount: string) {
    exists s, b :: HasExponent(s) && Spaces(b) && amount == s + b
  }

  lemma ExponentialIff(amount: string)
    ensures Exponential(amount) <==> Scientific(Trim(amount))
  {
    hide IsSpace, Trim, Scientific;
    if Scientific(Trim(amount)) {
      var a, b := TrimSplits(amount);
      ScientificIff(Trim(amount));
      var before, mark, sign, digits :| Exponent(Trim(amount), before, mark, sign, digits);
      assert Exponent(a + Trim(amount), a + before, mark, sign, digits);
      assert HasExponent(a + Trim(amount));
    }
    if Exponential(amount) {
      var s, b :| HasExponent(s) && Spaces(b) && amount == s + b;
      var before, mark, sign, digits :| Exponent(s, before, mark, sign, digits);
      TrimmedExponent(amount, b, before, mark, sign, digits);
    }
  }

  lemma SpacesAreNeither(c: char)
    ensures IsDigit(c) || c == 'e' || c == 'E' ==> !IsSpace(c)
  {}

  lemma TrimmedExponent(amount: string, b: string, before: string, mark: string, sign: string, digits: string)
    requires Spaces(b) && mark in ["e", "E"] && sign in ["", "+", "-"] && digits != "" && AllDigits(digits)
    requires amount == before + mark + sign + digits + b
    ensures Scientific(Trim(amount))
  {
    hide *;
    var a := TrimStartSplits(before);
    var rest := TrimStart(before);
    var s := rest + mark + sign + digits;
    TightExponent(rest, mark, sign, digits);
    assert amount == a + s + b;
    TrimOf(a, s, b);
    assert Exponent(s, rest, mark, sign, digits) by { IsExponentForm(s, rest, mark, sign, digits); }
    ExponentIsScientific(s, rest, mark, sign, digits);
  }

  lemma IsExponentForm(s: string, before: string, mark: string, sign: string, digits: string)
    requires mark in ["e", "E"] && sign in ["", "+", "-"] && digits != "" && AllDigits(digits)
    requires s == before + mark + sign + digits
    ensures Exponent(s, before, mark, sign, digits)
  {}

  lemma TightExponent(rest: string, mark: string, sign: string, digits: string)
    requires rest != "" ==> !IsSpace(rest[0])
    requires mark in ["e", "E"] && sign in ["", "+", "-"] && digits != "" && AllDigits(digits)
    ensures Tight(rest + mark + sign + digits)
  {
    var s := rest + mark + sign + digits;
    SpacesAreNeither(s[|s| - 1]);
    SpacesAreNeither(mark[0]);
    hide IsSpace;
    assert s[0] == if rest != "" then rest[0] else mark[0];
  }

  // ---------------------------------------------------------------- what is read

  /** The number of base units that the parts denote at `d` decimals. */
  function Units(p: Parts, d: nat): int
    requires AllDigits(p.whole) && AllDigits(p.fraction) && |p.fraction| <= d
  {
    (if p.negative then -1 else 1) * (Value(p.whole) * Pow10(d) + Value(p.fraction) * Pow10(d - |p.fraction|))
  }

  lemma UnitsIsMagnitude(p: Parts, d: nat)
    requires WellFormed(p) && |p.fraction| <= d
    ensures Units(p, d) == Sign(p.negative, Magnitude(p, d))
  {
    hide Value, Pow10, AllDigits;
    PadMore(p.fraction, |p.fraction|, d);
    assert PadEnd(p.fraction, |p.fraction|) == p.fraction;
  }

  /** An amount is accepted if and only if it is, between spaces, an optional minus sign and digits,
      and perhaps a point and at most `d` more digits; the result is what these denote.  More digits
      are too many, an exponent is none of this, and every other text is malformed. */
  lemma ToBaseIff(amount: string, d: nat, n: int)
    ensures ToBase(amount, d) == Success(n)
      <==> exists p :: Reads(amount, p) && |p.fraction| <= d && Units(p, d) == n
    ensures ToBase(amount, d) == Failure(TooManyDecimals) <==> exists p :: Reads(amount, p) && |p.fraction| > d
    ensures ToBase(amount, d) == Failure(ScientificNotation) <==> Exponential(amount)
    ensures ToBase(amount, d) == Failure(InvalidFormat)
      <==> !Exponential(amount) && forall p :: !Reads(amount, p)
  {
    hide Trim, Scientific, Split, Reads, Exponential, Units, Magnitude;
    ExponentialIff(amount);
    forall p ensures Reads(amount, p) <==> !Scientific(Trim(amount)) && Split(Trim(amount)) == Some(p) {
      ReadsIff(amount, p);
    }
    if !Scientific(Trim(amount)) && Split(Trim(amount)).Some? {
      var p := Split(Trim(amount)).value;
      assert Reads(amount, p);
      if |p.fraction| <= d { UnitsIsMagnitude(p, d); }
    }
  }

  /** Printing what was read gives the canonical form of the text, whatever the text. */
  lemma FromBaseOfToBase(amount: string, p: Parts, d: nat)
    requires Reads(amount, p) && |p.fraction| <= d
    ensures ToBase(amount, d).Success? && FromBase(ToBase(amount, d).value, d) == Canonical(p)
  {
    hide Trim, Scientific, Split, Reads, FromBase, Canonical;
    ReadsIff(amount, p);
    PrintsCanonically(amount, d);
  }

  // ---------------------------------------------------------------- what is printed

  /** No digit could be left out. */
  predicate Shortest(p: Parts) {
    && (|p.whole| > 1 ==> p.whole[0] != '0')
    && (p.fraction != "" ==> p.fraction[|p.fraction| - 1] != '0')
  }

  /** The crypto printer prints the number itself, with the digits that it needs. */
  lemma FromBaseIsShortest(n: int, d: nat)
    ensures exists p :: Writes(FromBase(n, d), p) && Shortest(p) && (p.negative <==> n < 0)
                        && |p.fraction| <= d && Units(p, d) == n
  {
    var p := PartsOf(n, d);
    PartsDenote(n, d);
    WholeIsShortest(n, d);
    assert Shortest(p) && (p.negative <==> n < 0);
    hide PartsOf, Magnitude, Units, Pow10, WholeDigits, Shortest;
    WrittenIsPrinted(FromBase(n, d), p);
    UnitsIsMagnitude(p, d);
    SignOfParts(n, d);
  }

  lemma WholeIsShortest(n: int, d: nat)
    ensures var w := WholeDigits(n, d); |w| > 1 ==> w[0] != '0'
  {
    hide Pow10;
    ValueOfDigits(Quot(Abs(n), Pow10(d)));
  }

  /** The fiat printer and `toFixed` print the number itself, with `k` digits after the point. */
  lemma ToFixedHasPlaces(n: int, k: nat)
    requires k > 0
    ensures exists p :: Writes(ToFixed(n, k), p) && (p.negative <==> n < 0) && (|p.whole| > 1 ==> p.whole[0] != '0')
                        && |p.fraction| == k && Units(p, k) == n
    ensures k == 2 ==> FromFiatBase(n, k) == ToFixed(n, k)
  {
    var p := Parts(n < 0, WholeDigits(n, k), FractionDigits(n, k));
    WholeIsShortest(n, k);
    hide Pow10, Digits, PadStart, Value;
    FixedWidth(Rem(Abs(n), Pow10(k)), k);
    ValueOfDigits(Quot(Abs(n), Pow10(k)));
    assert Magnitude(p, k) == Abs(n);
    UnitsIsMagnitude(p, k);
    hide Units, WholeDigits, FractionDigits;
    assert ToFixed(n, k) == Printed(p);
    WrittenIsPrinted(ToFixed(n, k), p);
  }

  /** The digits of a printed fraction, at any number of decimals. */
  lemma FractionIsRemainder(n: int, d: nat)
    ensures var f := FractionDigits(n, d);
      AllDigits(f) && (if d == 0 then f == "0" else |f| == d) && Value(f) == Rem(Abs(n), Pow10(d))
  {
    if d > 0 {
      hide Pow10, Digits, PadStart, Value;
      FixedWidth(Rem(Abs(n), Pow10(d)), d);
    } else {
      assert Rem(Abs(n), 1) == 0;
      assert Digits(0) == "0";
      PadZeroValue(0);
    }
  }

  /** The first two places of a fraction of `d`, filled up with zeros. */
  lemma TwoPlacesValue(f: string, d: nat)
    requires AllDigits(f) && f != "" && (if d == 0 then f == "0" else |f| == d)
    ensures AllDigits(TwoPlaces(f)) && |TwoPlaces(f)| == 2
    ensures d >= 2 ==> Value(TwoPlaces(f)) == Quot(Value(f), Pow10(d - 2))
    ensures d < 2 ==> Value(TwoPlaces(f)) == Value(f) * Pow10(2 - d)
  {
    hide Pow10, Value;
    if d >= 2 {
      assert f == f[..2] + f[2..];
      assert TwoPlaces(f) == f[..2];
      ValueOfConcat(f[..2], f[2..]);
      ValueBound(f[2..]);
      QuotRemUnique(Value(f[..2]), Value(f[2..]), Pow10(d - 2));
    } else {
      var z := Zeros(2 - |f|);
      assert TwoPlaces(f) == f + z;
      ValueOfZeros(2 - |f|);
      ValueOfConcat(f, z);
      if d == 0 { PadZeroValue(0); }
    }
  }

  lemma HundredthsOf(w: nat, r: nat, n: nat, d: nat)
    requires n == w * Pow10(d) + r && r < Pow10(d)
    ensures d >= 2 ==> Quot(n, Pow10(d - 2)) == w * 100 + Quot(r, Pow10(d - 2))
    ensures d < 2 ==> n * Pow10(2 - d) == w * 100 + r * Pow10(2 - d)
  {
    assert Pow10(2) == 100;
    hide Pow10;
    if d >= 2 {
      var x := Pow10(d - 2);
      Pow10Sum(2, d - 2);
      var q := w * 100 + Quot(r, x);
      assert w * (100 * x) == (w * 100) * x;
      assert q * x == (w * 100) * x + Quot(r, x) * x;
      QuotRemUnique(q, Rem(r, x), x);
    } else {
      Pow10Sum(d, 2 - d);
      assert (w * Pow10(d) + r) * Pow10(2 - d) == w * (Pow10(d) * Pow10(2 - d)) + r * Pow10(2 - d);
    }
  }

  /** At any number of decimals the fiat printer shows two places: the hundredths of the amount, with
      what is below them cut off. */
  lemma FiatHasTwoPlaces(n: int, d: nat)
    ensures exists p ::
      && Writes(FromFiatBase(n, d), p) && (p.negative <==> n < 0)
      && (|p.whole| > 1 ==> p.whole[0] != '0') && |p.fraction| == 2
      && Value(p.whole) * 100 + Value(p.fraction)
         == if d >= 2 then Quot(Abs(n), Pow10(d - 2)) else Abs(n) * Pow10(2 - d)
  {
    var p := Parts(n < 0, WholeDigits(n, d), TwoPlaces(FractionDigits(n, d)));
    WholeIsShortest(n, d);
    hide Pow10;
    ValueOfDigits(Quot(Abs(n), Pow10(d)));
    FractionIsRemainder(n, d);
    TwoPlacesValue(FractionDigits(n, d), d);
    HundredthsOf(Quot(Abs(n), Pow10(d)), Rem(Abs(n), Pow10(d)), Abs(n), d);
    assert Value(p.whole) == Quot(Abs(n), Pow10(d));
    hide WholeDigits, FractionDigits, TwoPlaces, Value, Digits, Quot, Rem;
    assert FromFiatBase(n, d) == Printed(p);
    WrittenIsPrinted(FromFiatBase(n, d), p);
  }
}

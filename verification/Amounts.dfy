/** Conversion between decimal amounts and integer base units, for a given number of decimals. */
module Amounts {
  import opened Wrappers
  import opened Numerals
  import opened Rounding
  import opened Networks

  datatype AmountError = ScientificNotation | InvalidFormat | TooManyDecimals

  // ---------------------------------------------------------------- reading

  function DigitSuffix(s: string): (n: nat)
    ensures n <= |s|
  {
    if s != "" && IsDigit(s[|s| - 1]) then 1 + DigitSuffix(s[..|s| - 1]) else 0
  }

  predicate IsExponentMark(c: char) {
    c == 'e' || c == 'E'
  }

  /** The amount ends in an exponent. */
  predicate Scientific(s: string) {
    var k := |s| - DigitSuffix(s);
    k < |s| && k > 0
    && (IsExponentMark(s[k - 1]) || (k > 1 && (s[k - 1] == '+' || s[k - 1] == '-') && IsExponentMark(s[k - 2])))
  }

  function PointIndex(s: string): (i: nat)
    ensures i <= |s| && (i < |s| ==> s[i] == '.')
    ensures '.' !in s[..i]
  {
    if s == "" || s[0] == '.' then 0
    else
      var i := 1 + PointIndex(s[1..]);
      assert s[..i] == [s[0]] + s[1..][..i - 1];
      i
  }

  /** The parts of an amount: its sign and the digits before and after the point. */
  datatype Parts = Parts(negative: bool, whole: string, fraction: string)

  predicate IsNumeral(s: string) {
    s != "" && AllDigits(s)
  }

  /** An optional minus sign, digits, and optionally a point and more digits. */
  function Split(s: string): (r: Option<Parts>)
    ensures r.Some? ==> IsNumeral(r.value.whole) && AllDigits(r.value.fraction)
  {
    var negative := s != "" && s[0] == '-';
    var body := if negative then s[1..] else s;
    var i := PointIndex(body);
    if !IsNumeral(body[..i]) then None
    else if i == |body| then Some(Parts(negative, body, ""))
    else if !IsNumeral(body[i + 1..]) then None
    else Some(Parts(negative, body[..i], body[i + 1..]))
  }

  function Magnitude(p: Parts, d: nat): nat
    requires AllDigits(p.whole) && AllDigits(p.fraction) && |p.fraction| <= d
  {
    Value(p.whole) * Pow10(d) + Value(PadEnd(p.fraction, d))
  }

  function Sign(negative: bool, n: nat): int {
    if negative then 0 - n else n
  }

  /** `ConvertCurrency.toBase` at `d` decimals. */
  function ToBase(amount: string, d: nat): Result<int, AmountError> {
    var s := Trim(amount);
    if Scientific(s) then Failure(ScientificNotation)
    else
      match Split(s)
      case None => Failure(InvalidFormat)
      case Some(p) =>
        if |p.fraction| > d then Failure(TooManyDecimals)
        else Success(Sign(p.negative, Magnitude(p, d)))
  }

  // ---------------------------------------------------------------- printing

  function Abs(n: int): nat {
    if n < 0 then -n else n
  }

  function WholeDigits(n: int, d: nat): string {
    Digits(Quot(Abs(n), Pow10(d)))
  }

  function FractionDigits(n: int, d: nat): string {
    PadStart(Digits(Rem(Abs(n), Pow10(d))), d)
  }

  function Joined(whole: string, fraction: string): string {
    if fraction == "" then whole else whole + "." + fraction
  }

  function Signed(negative: bool, s: string): string {
    if negative then "-" + s else s
  }

  function Printed(p: Parts): string {
    Signed(p.negative, Joined(p.whole, p.fraction))
  }

  function PartsOf(n: int, d: nat): Parts {
    Parts(n < 0, WholeDigits(n, d), StripEnd(FractionDigits(n, d)))
  }

  /** `ConvertCurrency.fromBase` for a crypto currency with `d` decimals. */
  function FromBase(n: int, d: nat): string {
    Printed(PartsOf(n, d))
  }

  function TwoPlaces(f: string): string {
    PadEnd(if |f| > 2 then f[..2] else f, 2)
  }

  /** `ConvertCurrency.fromBase` for a fiat currency: always two places, further ones cut off. */
  function FromFiatBase(n: int, d: nat): string {
    Signed(n < 0, WholeDigits(n, d) + "." + TwoPlaces(FractionDigits(n, d)))
  }

  /** `ConvertCurrency.formatCryptoForQuote`. */
  function FormatForQuote(n: int, d: nat): string {
    var fraction := StripEnd(FractionDigits(n, d));
    var whole := Quot(Abs(n), Pow10(d));
    if whole == 0
    then Signed(n < 0, if fraction == "" then "0.00" else "0." + fraction)
    else Signed(n < 0, Joined(Digits(whole), fraction))
  }

  // ---------------------------------------------------------------- reading what was printed

  lemma {:induction false} PointAfter(a: string, b: string)
    requires AllDigits(a)
    ensures PointIndex(a + "." + b) == |a|
    ensures PointIndex(a) == |a|
  {
    if a != "" {
      PointAfter(a[1..], b);
      assert (a + "." + b)[1..] == a[1..] + "." + b;
    }
  }

  predicate IsPlain(c: char) {
    IsDigit(c) || c == '.' || c == '-'
  }

  lemma PlainText(s: string)
    requires s != "" && forall i :: 0 <= i < |s| ==> IsPlain(s[i])
    ensures Trim(s) == s && !Scientific(s)
  {}

  lemma SplitBody(whole: string, fraction: string)
    requires IsNumeral(whole) && AllDigits(fraction)
    ensures var body := Joined(whole, fraction);
      && body[0] == whole[0]
      && PointIndex(body) == |whole| && body[..|whole|] == whole
      && if fraction == "" then |body| == |whole| else body[|whole| + 1..] == fraction
  {
    PointAfter(whole, fraction);
  }

  predicate WellFormed(p: Parts) {
    IsNumeral(p.whole) && AllDigits(p.fraction)
  }

  /** Parsing reads back the parts that were printed. */
  lemma SplitPrinted(p: Parts)
    requires WellFormed(p)
    ensures Trim(Printed(p)) == Printed(p) && !Scientific(Printed(p)) && Split(Printed(p)) == Some(p)
  {
    hide Trim, Scientific;
    var body := Joined(p.whole, p.fraction);
    var s := Printed(p);
    SplitBody(p.whole, p.fraction);
    PlainText(s);
    assert p.negative ==> s[1..] == body;
    assert !p.negative ==> s[0] == p.whole[0];
  }

  lemma ToBaseOfPrinted(p: Parts, d: nat)
    requires WellFormed(p) && |p.fraction| <= d
    ensures ToBase(Printed(p), d) == Success(Sign(p.negative, Magnitude(p, d)))
  {
    hide Trim, Scientific, Split, Printed, Magnitude;
    SplitPrinted(p);
  }

  // ---------------------------------------------------------------- round trips

  lemma PaddedFraction(r: nat, d: nat)
    requires r < Pow10(d)
    ensures var f := StripEnd(PadStart(Digits(r), d));
      |f| <= d && AllDigits(f) && AllDigits(PadEnd(f, d)) && Value(PadEnd(f, d)) == r
  {
    if d > 0 {
      FixedWidth(r, d);
      StripThenPad(PadStart(Digits(r), d));
    }
  }

  /** The printed parts of a number denote its magnitude. */
  lemma PartsDenote(n: int, d: nat)
    ensures var p := PartsOf(n, d);
      WellFormed(p) && |p.fraction| <= d && Magnitude(p, d) == Abs(n)
  {
    hide Digits, StripEnd, PadStart, PadEnd, Value, Pow10;
    PaddedFraction(Rem(Abs(n), Pow10(d)), d);
    ValueOfDigits(Quot(Abs(n), Pow10(d)));
  }

  /** Parsing what the crypto printer printed gives the number back, at any number of decimals. */
  lemma ToBaseOfFromBase(n: int, d: nat)
    ensures ToBase(FromBase(n, d), d) == Success(n)
  {
    hide ToBase, PartsOf, Magnitude, Printed;
    PartsDenote(n, d);
    ToBaseOfPrinted(PartsOf(n, d), d);
    SignOfParts(n, d);
  }

  lemma SignOfParts(n: int, d: nat)
    ensures Sign(PartsOf(n, d).negative, Abs(n)) == n
  {}

  /** `toFixed(k)` of a multiple `n` of 10^-k. */
  function ToFixed(n: int, k: nat): string {
    Signed(n < 0, WholeDigits(n, k) + "." + FractionDigits(n, k))
  }

  lemma ToBaseOfToFixed(n: int, k: nat)
    requires k > 0
    ensures ToBase(ToFixed(n, k), k) == Success(n)
  {
    hide ToBase, Digits, PadStart, Value, Pow10;
    var p := Parts(n < 0, WholeDigits(n, k), FractionDigits(n, k));
    FixedWidth(Rem(Abs(n), Pow10(k)), k);
    ValueOfDigits(Quot(Abs(n), Pow10(k)));
    assert Magnitude(p, k) == Abs(n);
    assert ToFixed(n, k) == Printed(p);
    ToBaseOfPrinted(p, k);
  }

  /** The round trip for the fiat printer at its two decimals. */
  lemma ToBaseOfFromFiatBase(n: int)
    ensures ToBase(FromFiatBase(n, 2), 2) == Success(n)
  {
    hide ToBase, FromFiatBase, ToFixed;
    FiatIsToFixed(n);
    ToBaseOfToFixed(n, 2);
  }

  lemma FiatIsToFixed(n: int)
    ensures FromFiatBase(n, 2) == ToFixed(n, 2)
  {
    hide Digits, PadStart, Value, Pow10;
    FixedWidth(Rem(Abs(n), Pow10(2)), 2);
  }

  /** The canonical form of an amount: no spaces, no superfluous zeros, no sign on zero. */
  function Canonical(p: Parts): string {
    var body := Joined(StripStart(p.whole), StripEnd(p.fraction));
    Signed(p.negative && body != "0", body)
  }

  /** Printing the value of some parts keeps their digits, apart from superfluous zeros. */
  lemma FromBaseOfParts(p: Parts, d: nat)
    requires WellFormed(p) && |p.fraction| <= d
    ensures Quot(Magnitude(p, d), Pow10(d)) == Value(p.whole)
    ensures WholeDigits(Magnitude(p, d), d) == StripStart(p.whole)
    ensures StripEnd(FractionDigits(Magnitude(p, d), d)) == StripEnd(p.fraction)
  {
    hide Digits, StripEnd, StripStart, PadStart, PadEnd, Value, Pow10;
    var f := PadEnd(p.fraction, d);
    PadLength(p.fraction, d);
    ValueBound(f);
    QuotRemUnique(Value(p.whole), Value(f), Pow10(d));
    DigitsOfValue(p.whole);
    PadThenStrip(p.fraction, d);
    FractionDigitsOfValue(f);
  }

  lemma PadLength(s: string, d: nat)
    requires |s| <= d && AllDigits(s)
    ensures |PadEnd(s, d)| == d && AllDigits(PadEnd(s, d))
  {}

  lemma FractionDigitsOfValue(f: string)
    requires AllDigits(f)
    ensures StripEnd(PadStart(Digits(Value(f)), |f|)) == StripEnd(f)
  {
    if f != "" {
      FixedWidthUnique(f);
    } else {
      assert Digits(0) == "0";
      assert StripEnd("0") == "";
    }
  }

  lemma ZeroParts(d: nat)
    ensures WholeDigits(0, d) == "0" && StripEnd(FractionDigits(0, d)) == "" && Quot(0, Pow10(d)) == 0
  {
    PadZeroValue(d);
    FromBaseOfParts(Parts(false, "0", ""), d);
  }

  /** Only zero has no digits but a single 0 before the point and none after it. */
  lemma ZeroOnly(n: int, d: nat)
    requires Quot(Abs(n), Pow10(d)) == 0 && StripEnd(FractionDigits(n, d)) == ""
    ensures n == 0
  {
    hide StripEnd, FractionDigits, PadEnd, Pow10;
    PartsDenote(n, d);
    PadZeroValue(d);
    assert Digits(0) == "0";
  }

  /** An amount is zero exactly when its canonical digits are "0". */
  lemma ZeroIsCanonical(n: nat, d: nat)
    ensures n == 0 <==> Joined(WholeDigits(n, d), StripEnd(FractionDigits(n, d))) == "0"
  {
    hide StripEnd, FractionDigits, Digits, Pow10;
    ZeroParts(d);
    var w, f := WholeDigits(n, d), StripEnd(FractionDigits(n, d));
    if Joined(w, f) == "0" {
      assert f == "" || |Joined(w, f)| >= 2;
      ValueOfDigits(Quot(Abs(n), Pow10(d)));
      PadZeroValue(0);
      ZeroOnly(n, d);
    }
  }

  lemma PadZeroValue(d: nat)
    ensures Value("0") == 0 && AllDigits(PadEnd("", d)) && Value(PadEnd("", d)) == 0
  {
    ValueOfZeros(d);
    LeadingZero("");
    assert "0" + "" == "0";
    assert PadEnd("", d) == Zeros(d);
  }

  /** Printing what was parsed gives the canonical form of the text, whatever the text. */
  lemma PrintsCanonically(amount: string, d: nat)
    ensures ToBase(amount, d).Success? ==>
      FromBase(ToBase(amount, d).value, d) == Canonical(Split(Trim(amount)).value)
  {
    hide Trim, Scientific, Split, Magnitude, WholeDigits, FractionDigits, StripStart, StripEnd, Joined;
    if ToBase(amount, d).Failure? { return; }
    var p := Split(Trim(amount)).value;
    var m := Magnitude(p, d);
    FromBaseOfParts(p, d);
    ZeroIsCanonical(m, d);
    SignDoesNotMatter(m, d);
  }

  lemma SignDoesNotMatter(m: nat, d: nat)
    ensures WholeDigits(0 - m, d) == WholeDigits(m, d) && FractionDigits(0 - m, d) == FractionDigits(m, d)
  {}

  /** A quote prints like the crypto printer, except that 0 reads "0.00". */
  lemma QuoteFormat(n: int, d: nat)
    ensures FormatForQuote(n, d) == if n == 0 then "0.00" else FromBase(n, d)
  {
    hide StripEnd, FractionDigits, Pow10;
    ZeroParts(d);
    if Quot(Abs(n), Pow10(d)) == 0 {
      assert Digits(0) == "0";
      if StripEnd(FractionDigits(n, d)) == "" { ZeroOnly(n, d); }
    }
  }

  // ---------------------------------------------------------------- two numbers of decimals

  lemma PadMore(f: string, b: nat, a: nat)
    requires AllDigits(f) && |f| <= b <= a
    ensures AllDigits(PadEnd(f, a)) && AllDigits(PadEnd(f, b))
    ensures Value(PadEnd(f, a)) == Value(PadEnd(f, b)) * Pow10(a - b)
  {
    hide Value, Pow10;
    var z := Zeros(a - b);
    assert PadEnd(f, a) == PadEnd(f, b) + z;
    ValueOfZeros(a - b);
    ValueOfConcat(PadEnd(f, b), z);
  }

  lemma Distribute(w: int, f: int, x: int, y: int)
    ensures w * (x * y) + f * y == (w * x + f) * y
  {
    assert (w * x) * y == w * (x * y);
  }

  lemma MagnitudeScales(p: Parts, b: nat, a: nat)
    requires WellFormed(p) && |p.fraction| <= b <= a
    ensures Magnitude(p, a) == Magnitude(p, b) * Pow10(a - b)
  {
    hide Value, PadEnd, Pow10;
    PadMore(p.fraction, b, a);
    Pow10Sum(b, a - b);
    Distribute(Value(p.whole), Value(PadEnd(p.fraction, b)), Pow10(b), Pow10(a - b));
  }

  /** Reading a text at `a` instead of `b` decimals multiplies the result by exactly 10^(a - b). */
  lemma ToBaseScales(amount: string, b: nat, a: nat)
    requires b <= a
    ensures ToBase(amount, b).Success? ==>
      ToBase(amount, a) == Success(ToBase(amount, b).value * Pow10(a - b))
  {
    hide Trim, Scientific, Split, Magnitude, Pow10;
    if ToBase(amount, b).Failure? { return; }
    var p := Split(Trim(amount)).value;
    MagnitudeScales(p, b, a);
    assert (0 - Magnitude(p, b)) * Pow10(a - b) == 0 - Magnitude(p, b) * Pow10(a - b);
  }

  /** So an amount of base units shows as 10^(a - b) times as much at `b` as at `a` decimals. */
  lemma FromBaseScales(n: int, b: nat, a: nat)
    requires b <= a
    ensures FromBase(n, b) == FromBase(n * Pow10(a - b), a)
  {
    hide ToBase, FromBase, Canonical, Split, Trim, Pow10;
    var s := FromBase(n, b);
    ToBaseOfFromBase(n, b);
    ToBaseScales(s, b, a);
    PrintsCanonically(s, a);
    PrintsCanonically(s, b);
  }

  /** Fixed-point texts add up in base units, at any number of decimals that can hold them. */
  lemma ToFixedAdds(m: int, n: int, k: nat, d: nat)
    requires 0 < k <= d
    ensures ToBase(ToFixed(m, k), d).Success? && ToBase(ToFixed(n, k), d).Success?
    ensures ToBase(ToFixed(m + n, k), d)
         == Success(ToBase(ToFixed(m, k), d).value + ToBase(ToFixed(n, k), d).value)
  {
    hide ToBase, ToFixed, Pow10;
    ToBaseOfToFixed(m, k);
    ToBaseOfToFixed(n, k);
    ToBaseOfToFixed(m + n, k);
    ToBaseScales(ToFixed(m, k), k, d);
    ToBaseScales(ToFixed(n, k), k, d);
    ToBaseScales(ToFixed(m + n, k), k, d);
    var x := Pow10(d - k);
    assert (m + n) * x == m * x + n * x;
  }
}

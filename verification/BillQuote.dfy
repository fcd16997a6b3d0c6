/** The quote of a bill that is paid by selling USDT: exact arithmetic, rounded up to six
    decimal places, and the base units in which it is reserved. */
module BillQuote {
  import opened Wrappers
  import opened Networks
  import opened CurrencyScale
  import opened Numerals
  import Amounts

  /** The least integer not below `x`. */
  function Ceiling(x: real): (n: int)
    ensures x <= n as real < x + 1.0
  {
    -((-x).Floor)
  }

  /** `toDecimalPlaces(6, ROUND_CEIL)`, counted in millionths. */
  function CeilSix(x: real): int {
    Ceiling(x * 1_000_000.0)
  }

  function FromSix(n: int): real {
    n as real / 1_000_000.0
  }

  const PLATFORM_SPREAD: real := 0.005

  /** The amounts of a quote in millionths of a USDT. */
  function CryptoAmount(bill: real, rate: real): int
    requires rate > 0.0
  {
    CeilSix(bill / rate)
  }

  function FeeAmount(crypto: int): int {
    CeilSix(FromSix(crypto) * PLATFORM_SPREAD)
  }

  function TotalToPay(crypto: int, fee: int): int {
    CeilSix(FromSix(crypto) + FromSix(fee))
  }

  datatype Quote = Quote(
    cryptoAmount: string,
    feeAmount: string,
    totalToPay: string,
    cryptoMinor: int,
    feeMinor: int,
    totalMinor: int
  )

  datatype QuoteError = NoRate | BadConversion | InsufficientBalance

  /** The quote of a bill of `bill` naira, with the converter's current cache. */
  function MakeQuote(cache: NetworkCache, bill: real, rate: real, available: int): Result<Quote, QuoteError> {
    if rate <= 0.0 then Failure(NoRate)
    else
      var crypto := CryptoAmount(bill, rate);
      var fee := FeeAmount(crypto);
      var cryptoMinor := ToBase(cache, Amounts.ToFixed(crypto, 6), USDT, Unspecified);
      var feeMinor := ToBase(cache, Amounts.ToFixed(fee, 6), USDT, Unspecified);
      if cryptoMinor.Failure? || feeMinor.Failure? then Failure(BadConversion)
      else if available < cryptoMinor.value + feeMinor.value then Failure(InsufficientBalance)
      else Success(Quote(
        Amounts.ToFixed(crypto, 6), Amounts.ToFixed(fee, 6), Amounts.ToFixed(TotalToPay(crypto, fee), 6),
        cryptoMinor.value, feeMinor.value, cryptoMinor.value + feeMinor.value))
  }

  /** The crypto amount covers the bill, by less than the value of one millionth of a USDT. */
  lemma CryptoCoversBill(bill: real, rate: real)
    requires rate > 0.0
    ensures bill <= FromSix(CryptoAmount(bill, rate)) * rate < bill + rate * 0.000001
  {
    var n, x := CryptoAmount(bill, rate), bill / rate;
    assert x * 1_000_000.0 <= n as real < x * 1_000_000.0 + 1.0;
    assert x <= FromSix(n) < x + 0.000001;
    ScaleBounds(bill, x, FromSix(n), rate);
  }

  lemma ScaleBounds(bill: real, x: real, v: real, rate: real)
    requires rate > 0.0 && x * rate == bill && x <= v < x + 0.000001
    ensures bill <= v * rate < bill + rate * 0.000001
  {
    var w := v - x;
    assert v * rate == bill + w * rate;
    assert w * rate >= 0.0;
    assert (0.000001 - w) * rate > 0.0;
  }

  /** The fee is the least six-place amount that is not below half a percent of the crypto amount. */
  lemma FeeIsLeast(crypto: int, other: int)
    ensures FromSix(other) >= FromSix(crypto) * 0.005 <==> other >= FeeAmount(crypto)
  {
    var fee := FeeAmount(crypto);
    var x := FromSix(crypto) * PLATFORM_SPREAD * 1_000_000.0;
    assert x <= fee as real < x + 1.0;
  }

  lemma TotalIsSum(crypto: int, fee: int)
    ensures TotalToPay(crypto, fee) == crypto + fee
  {
    assert (FromSix(crypto) + FromSix(fee)) * 1_000_000.0 == (crypto + fee) as real;
  }

  lemma UsdtKeepsSixPlaces(cache: NetworkCache)
    requires CacheInv(cache)
    ensures ScaleDecimals(cache, USDT, Unspecified).Success? && ScaleDecimals(cache, USDT, Unspecified).value >= 6
  {
    DecimalsExist(cache, USDT);
    TablesAreConsistent(USDT);
  }

  /** On every USDT network a quote can be made, and what it reserves is what it shows: the two
      parts in base units add up to the displayed total in base units. */
  lemma QuoteTotalAgrees(cache: NetworkCache, bill: real, rate: real, available: int)
    requires CacheInv(cache)
    ensures var r := MakeQuote(cache, bill, rate, available);
      && (r.Failure? && r.error == NoRate <==> rate <= 0.0)
      && r != Failure(BadConversion)
      && (r.Success? ==>
            ToBase(cache, r.value.totalToPay, USDT, Unspecified) == Success(r.value.totalMinor)
            && r.value.totalMinor <= available)
  {
    hide Amounts.ToBase, Amounts.ToFixed, ScaleDecimals, CryptoAmount, FeeAmount, TotalToPay;
    if rate > 0.0 {
      var crypto := CryptoAmount(bill, rate);
      var fee := FeeAmount(crypto);
      UsdtKeepsSixPlaces(cache);
      TotalIsSum(crypto, fee);
      Amounts.ToFixedAdds(crypto, fee, 6, ScaleDecimals(cache, USDT, Unspecified).value);
    }
  }

  /** The decimals in which USDT amounts are reserved. */
  ghost function UsdtDecimals(cache: NetworkCache): (d: nat)
    requires CacheInv(cache)
    ensures d >= 6 && ScaleDecimals(cache, USDT, Unspecified) == Success(d)
  {
    UsdtKeepsSixPlaces(cache);
    ScaleDecimals(cache, USDT, Unspecified).value
  }

  lemma ReadSix(n: int, cache: NetworkCache)
    requires CacheInv(cache)
    ensures Amounts.ToBase(Amounts.ToFixed(n, 6), 6) == Success(n)
    ensures ToBase(cache, Amounts.ToFixed(n, 6), USDT, Unspecified)
         == Success(n * Pow10(UsdtDecimals(cache) - 6))
  {
    hide Amounts.ToBase, Amounts.ToFixed, ScaleDecimals, UsdtDecimals;
    Amounts.ToBaseOfToFixed(n, 6);
    Amounts.ToBaseScales(Amounts.ToFixed(n, 6), 6, UsdtDecimals(cache));
  }

  /** What a quote shows, read back from its texts: a crypto amount that covers the bill, the least
      fee for it and their sum; and what it reserves is those texts in base units of the network. */
  lemma QuoteShowsWhatItReserves(cache: NetworkCache, bill: real, rate: real, available: int)
    requires CacheInv(cache)
    ensures var r := MakeQuote(cache, bill, rate, available);
      r.Success? ==>
        var crypto, fee := Amounts.ToBase(r.value.cryptoAmount, 6), Amounts.ToBase(r.value.feeAmount, 6);
        && crypto.Success? && fee.Success?
        && Amounts.ToBase(r.value.totalToPay, 6) == Success(crypto.value + fee.value)
        && bill <= FromSix(crypto.value) * rate < bill + rate * 0.000001
        && FromSix(crypto.value) * 0.005 <= FromSix(fee.value) < FromSix(crypto.value) * 0.005 + 0.000001
        && ToBase(cache, r.value.cryptoAmount, USDT, Unspecified) == Success(r.value.cryptoMinor)
        && ToBase(cache, r.value.feeAmount, USDT, Unspecified) == Success(r.value.feeMinor)
        && r.value.totalMinor == r.value.cryptoMinor + r.value.feeMinor
  {
    hide Amounts.ToBase, Amounts.ToFixed, ToBase, CryptoAmount, FeeAmount, TotalToPay, FromSix;
    if rate > 0.0 {
      var crypto := CryptoAmount(bill, rate);
      var fee := FeeAmount(crypto);
      ReadSix(crypto, cache);
      ReadSix(fee, cache);
      TotalIsSum(crypto, fee);
      ReadSix(crypto + fee, cache);
      CryptoCoversBill(bill, rate);
      FeeIsLeast(crypto, fee);
      FeeIsLeast(crypto, fee - 1);
      OneLess(fee);
    }
  }

  /** With a rate, a quote is made if and only if the balance holds its total in base units: `c`
      millionths of a USDT, the fewest that cover the bill, and `f` millionths, the fewest that are
      half a percent of them.  Nothing but too small a balance refuses it. */
  lemma QuoteIsMadeIff(cache: NetworkCache, bill: real, rate: real, available: int) returns (c: int, f: int)
    requires CacheInv(cache) && rate > 0.0
    ensures (c as real / 1_000_000.0) * rate >= bill > ((c - 1) as real / 1_000_000.0) * rate
    ensures f as real / 1_000_000.0 >= 0.005 * (c as real / 1_000_000.0) > (f - 1) as real / 1_000_000.0
    ensures var r, total := MakeQuote(cache, bill, rate, available), (c + f) * Pow10(UsdtDecimals(cache) - 6);
      if available >= total then r.Success? && r.value.totalMinor == total else r == Failure(InsufficientBalance)
  {
    hide *;
    c := CryptoAmount(bill, rate);
    f := FeeAmount(c);
    CryptoIsLeast(bill, rate, c);
    FeeIsFewest(c, f);
    MadeFromUnits(cache, bill, rate, available);
  }

  lemma FeeIsFewest(c: int, f: int)
    requires f == FeeAmount(c)
    ensures f as real / 1_000_000.0 >= 0.005 * (c as real / 1_000_000.0) > (f - 1) as real / 1_000_000.0
  {
    FeeIsLeast(c, f);
    FeeIsLeast(c, f - 1);
    hide FeeAmount;
  }

  lemma Distribute(a: int, b: int, x: int)
    ensures (a + b) * x == a * x + b * x
  {}

  lemma MadeFromUnits(cache: NetworkCache, bill: real, rate: real, available: int)
    requires CacheInv(cache) && rate > 0.0
    ensures var r, c := MakeQuote(cache, bill, rate, available), CryptoAmount(bill, rate);
      var total := (c + FeeAmount(c)) * Pow10(UsdtDecimals(cache) - 6);
      if available >= total then r.Success? && r.value.totalMinor == total else r == Failure(InsufficientBalance)
  {
    hide Amounts.ToBase, Amounts.ToFixed, ToBase, CryptoAmount, FeeAmount, TotalToPay, UsdtDecimals, Pow10,
         ScaleDecimals, CacheInv, FromSix, CeilSix;
    var c := CryptoAmount(bill, rate);
    ReadSix(c, cache);
    ReadSix(FeeAmount(c), cache);
    Distribute(c, FeeAmount(c), Pow10(UsdtDecimals(cache) - 6));
  }

  lemma CryptoIsLeast(bill: real, rate: real, c: int)
    requires rate > 0.0 && c == CryptoAmount(bill, rate)
    ensures (c as real / 1_000_000.0) * rate >= bill > ((c - 1) as real / 1_000_000.0) * rate
  {
    CryptoCoversBill(bill, rate);
    OneLess(c);
    hide CryptoAmount;
    var v := FromSix(c);
    assert (v - 0.000001) * rate == v * rate - 0.000001 * rate;
  }

  lemma OneLess(n: int)
    ensures FromSix(n - 1) == FromSix(n) - 0.000001
  {}
}

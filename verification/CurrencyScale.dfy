/** How many decimals a currency has, and the cache of default networks that decides it. */
module CurrencyScale {
  import opened Wrappers
  import opened Numerals
  import opened Networks
  import Amounts

  /** The optional last argument of the converter. */
  datatype Scale = Unspecified | Decimals(n: nat) | OnNetwork(id: Network)

  datatype ConvertError =
    | UnsupportedCurrency
    | NetworkRequired
    | UnsupportedNetwork
    | BadAmount(reason: Amounts.AmountError)

  type NetworkCache = map<Currency, Network>

  function GetCurrencyDecimals(currency: Currency, scale: Scale): Result<nat, ConvertError> {
    if !currency.IsAllowed() then Failure(UnsupportedCurrency)
    else if scale.Decimals? then Success(scale.n)
    else if currency.IsFiat() then Success(2)
    else if !scale.OnNetwork? then Failure(NetworkRequired)
    else
      match Find(NetworksOf(currency), scale.id)
      case Some(info) => Success(info.decimals)
      case None => Failure(UnsupportedNetwork)
  }

  /** `setCachedDefaultNetwork`: a currency with a table takes no network outside it. */
  function SetCached(cache: NetworkCache, currency: Currency, network: Option<Network>): NetworkCache {
    if network.None? || (NetworksOf(currency) != [] && !Supports(currency, network.value)) then cache
    else cache[currency := network.value]
  }

  function GetCached(cache: NetworkCache, currency: Currency): Scale {
    if currency in cache then OnNetwork(cache[currency])
    else if NetworksOf(currency) != [] then OnNetwork(NetworksOf(currency)[0].id)
    else Unspecified
  }

  /** The decimals that the converter uses. */
  function ScaleDecimals(cache: NetworkCache, currency: Currency, scale: Scale): Result<nat, ConvertError> {
    if scale.Decimals? then Success(scale.n)
    else GetCurrencyDecimals(currency, if scale.Unspecified? then GetCached(cache, currency) else scale)
  }

  /** `getDefaultNetwork` of the converter, given what its resolver answered. */
  function Adopt(cache: NetworkCache, currency: Currency, resolved: Option<Network>): NetworkCache {
    if currency.IsFiat() then cache else SetCached(cache, currency, resolved)
  }

  // ---------------------------------------------------------------- the cache invariant

  ghost predicate CacheInv(cache: NetworkCache) {
    forall c :: c in cache && c.IsCrypto() ==> Supports(c, cache[c])
  }

  lemma SetKeepsCache(cache: NetworkCache, currency: Currency, network: Option<Network>)
    requires CacheInv(cache)
    ensures CacheInv(SetCached(cache, currency, network))
  {
    TablesAreConsistent(currency);
  }

  /** With a cache that only holds supported networks, every allowed currency has decimals: two
      for fiat, those of one of its networks for crypto. */
  lemma DecimalsExist(cache: NetworkCache, currency: Currency)
    requires CacheInv(cache) && currency.IsAllowed()
    ensures var r := ScaleDecimals(cache, currency, Unspecified);
      r.Success? && if currency.IsFiat() then r.value == 2
                    else exists info :: info in NetworksOf(currency) && info.decimals == r.value
  {
    TablesAreConsistent(currency);
    if currency.IsCrypto() {
      var info := Find(NetworksOf(currency), GetCached(cache, currency).id).value;
      assert info in NetworksOf(currency);
    }
  }

  /** The decimals in every case: as given, two for fiat, those of the table for a network in it; and
      every way to fail. */
  lemma DecimalsInEveryCase(cache: NetworkCache, currency: Currency, scale: Scale)
    ensures ScaleDecimals(cache, currency, scale) ==
      if scale.Decimals? then Success(scale.n)
      else if currency.Other? then Failure(UnsupportedCurrency)
      else if currency.NGN? || currency.USD? then Success(2)
      else
        var id := if scale.OnNetwork? then scale.id
                  else if currency in cache then cache[currency] else NetworksOf(currency)[0].id;
        (match Find(NetworksOf(currency), id)
         case Some(info) => Success(info.decimals)
         case None => Failure(UnsupportedNetwork))
    ensures GetCurrencyDecimals(currency, scale) ==
      if currency.Other? then Failure(UnsupportedCurrency)
      else if scale.Decimals? then Success(scale.n)
      else if currency.IsCrypto() && scale.Unspecified? then Failure(NetworkRequired)
      else ScaleDecimals(cache, currency, scale)
  {
    TablesAreConsistent(currency);
  }

  /** A write stores a network exactly if one is given and, for a currency with a table, the table
      has it; the resolver's answer for a fiat currency is never stored. */
  lemma StoresIff(cache: NetworkCache, currency: Currency, network: Option<Network>)
    ensures SetCached(cache, currency, network)
         == if network.Some?
               && (!currency.IsCrypto() || exists info :: info in NetworksOf(currency) && info.id == network.value)
            then cache[currency := network.value] else cache
    ensures Adopt(cache, currency, network)
         == if currency.IsFiat() then cache else SetCached(cache, currency, network)
  {
    TablesAreConsistent(currency);
  }

  /** The default network of a currency that the cache does not hold, and its decimals. */
  lemma DefaultWithoutCache(cache: NetworkCache, currency: Currency)
    requires currency !in cache && currency.IsCrypto()
    ensures var (network, decimals) := match currency
        case BTC => (Btc, 8)
        case ETH => (Erc20, 18)
        case TRX => (Trc20, 6)
        case SOL => (Solana, 9)
        case DOGE => (Network.Doge, 8)
        case XRP => (Ripple, 6)
        case _ => (Bep20, 18);
      GetCached(cache, currency) == OnNetwork(network)
      && ScaleDecimals(cache, currency, Unspecified) == Success(decimals)
  {}

  /** Adopting a resolver's answer leaves the answer as the default when the currency supports
      it, and the previous default otherwise. */
  lemma AdoptedNetwork(cache: NetworkCache, currency: Currency, resolved: Option<Network>)
    requires currency.IsCrypto()
    ensures GetCached(Adopt(cache, currency, resolved), currency)
         == if resolved.Some? && Supports(currency, resolved.value) then OnNetwork(resolved.value)
            else GetCached(cache, currency)
  {
    TablesAreConsistent(currency);
  }

  // ---------------------------------------------------------------- conversions

  function ToBase(cache: NetworkCache, amount: string, currency: Currency, scale: Scale): Result<int, ConvertError> {
    match ScaleDecimals(cache, currency, scale)
    case Failure(e) => Failure(e)
    case Success(d) =>
      match Amounts.ToBase(amount, d)
      case Success(n) => Success(n)
      case Failure(e) => Failure(BadAmount(e))
  }

  function FromBase(cache: NetworkCache, amount: int, currency: Currency, scale: Scale): Result<string, ConvertError> {
    match ScaleDecimals(cache, currency, scale)
    case Failure(e) => Failure(e)
    case Success(d) =>
      Success(if currency.IsFiat() then Amounts.FromFiatBase(amount, d) else Amounts.FromBase(amount, d))
  }

  /** Fiat amounts are printed with two places, crypto amounts with as many as they need. */
  lemma PrintedByKind(cache: NetworkCache, n: int, currency: Currency)
    requires CacheInv(cache) && currency.IsAllowed()
    ensures var r, d := FromBase(cache, n, currency, Unspecified), ScaleDecimals(cache, currency, Unspecified);
      if currency.NGN? || currency.USD? then r == Success(Amounts.ToFixed(n, 2))
      else d.Success? && r == Success(Amounts.FromBase(n, d.value))
  {
    hide Amounts.FromBase, Amounts.FromFiatBase;
    DecimalsExist(cache, currency);
    Amounts.FiatIsToFixed(n);
  }

  /** For every allowed currency, what the default cache prints is read back to the same number. */
  lemma DefaultRoundTrip(cache: NetworkCache, n: int, currency: Currency)
    requires CacheInv(cache) && currency.IsAllowed()
    ensures FromBase(cache, n, currency, Unspecified).Success?
    ensures ToBase(cache, FromBase(cache, n, currency, Unspecified).value, currency, Unspecified) == Success(n)
  {
    hide Amounts.ToBase, Amounts.FromBase, Amounts.FromFiatBase;
    DecimalsExist(cache, currency);
    var d := ScaleDecimals(cache, currency, Unspecified).value;
    Amounts.ToBaseOfFromBase(n, d);
    Amounts.ToBaseOfFromFiatBase(n);
  }

  /** An amount stored while the default network was `a` and shown while it is `b`: the text is
      that of the amount times 10 to the difference of the decimals, in whichever direction. */
  lemma ReadUnderOtherNetwork(cache: NetworkCache, n: int, currency: Currency, a: Network, b: Network)
    requires currency.IsCrypto() && Supports(currency, a) && Supports(currency, b)
    ensures var x := GetCurrencyDecimals(currency, OnNetwork(a)).value;
      var y := GetCurrencyDecimals(currency, OnNetwork(b)).value;
      && (y <= x ==> FromBase(cache, n, currency, OnNetwork(b))
                     == FromBase(cache, n * Pow10(x - y), currency, OnNetwork(a)))
      && (x <= y ==> FromBase(cache, n * Pow10(y - x), currency, OnNetwork(b))
                     == FromBase(cache, n, currency, OnNetwork(a)))
  {
    hide Amounts.FromBase, NetworksOf, Find, Pow10;
    var x := GetCurrencyDecimals(currency, OnNetwork(a)).value;
    var y := GetCurrencyDecimals(currency, OnNetwork(b)).value;
    if y <= x { Amounts.FromBaseScales(n, y, x); }
    if x <= y { Amounts.FromBaseScales(n, x, y); }
  }
}

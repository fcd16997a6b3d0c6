/** The converter with its static default-network cache, and the service that fills the cache
    from what Redis holds about the company's liquidity and wallets. */
module Converter {
  import opened Wrappers
  import opened Numerals
  import opened Networks
  import opened CurrencyScale
  import Amounts
  import AmountTexts

  class ConvertCurrency {
    var defaultNetworkCache: NetworkCache

    constructor ()
      ensures defaultNetworkCache == map[] && CacheInv(defaultNetworkCache)
    {
      defaultNetworkCache := map[];
    }

    method SetCachedDefaultNetwork(currency: Currency, network: Option<Network>)
      modifies this
      ensures defaultNetworkCache == SetCached(old(defaultNetworkCache), currency, network)
    {
      hide NetworksOf, Find;
      if network.None? { return; }
      var supportedNetworks := NetworksOf(currency);
      if supportedNetworks != [] && Find(supportedNetworks, network.value).None? { return; }
      defaultNetworkCache := defaultNetworkCache[currency := network.value];
    }

    method GetDefaultNetwork(currency: Currency, resolved: Option<Network>) returns (r: Scale)
      modifies this
      ensures defaultNetworkCache == Adopt(old(defaultNetworkCache), currency, resolved)
      ensures r == if currency.IsFiat() then Unspecified else GetCached(defaultNetworkCache, currency)
    {
      if currency.IsFiat() { return Unspecified; }
      if resolved.Some? { SetCachedDefaultNetwork(currency, resolved); }
      return GetCached(defaultNetworkCache, currency);
    }

    method ToBase(amount: string, currency: Currency, scale: Scale) returns (r: Result<int, ConvertError>)
      ensures r == CurrencyScale.ToBase(defaultNetworkCache, amount, currency, scale)
    {
      hide ScaleDecimals, Trim, Amounts.Scientific, Amounts.Split, Pow10, PadEnd, Value;
      var decimals := ScaleDecimals(defaultNetworkCache, currency, scale);
      if decimals.Failure? { return Failure(decimals.error); }
      var normalized := Trim(amount);
      if Amounts.Scientific(normalized) { return Failure(BadAmount(Amounts.ScientificNotation)); }
      var parts := Amounts.Split(normalized);
      if parts.None? { return Failure(BadAmount(Amounts.InvalidFormat)); }
      var whole, fraction := parts.value.whole, parts.value.fraction;
      if |fraction| > decimals.value { return Failure(BadAmount(Amounts.TooManyDecimals)); }
      fraction := PadEnd(fraction, decimals.value);
      var value: int := Value(whole) * Pow10(decimals.value) + Value(fraction);
      return Success(if parts.value.negative then 0 - value else value);
    }

    method FromBase(amount: int, currency: Currency, scale: Scale) returns (r: Result<string, ConvertError>)
      ensures r == CurrencyScale.FromBase(defaultNetworkCache, amount, currency, scale)
    {
      var decimals := ScaleDecimals(defaultNetworkCache, currency, scale);
      if decimals.Failure? { return Failure(decimals.error); }
      var result := Amounts.WholeDigits(amount, decimals.value);
      var fraction := Amounts.FractionDigits(amount, decimals.value);
      if currency.IsFiat() {
        result := result + "." + Amounts.TwoPlaces(fraction);
      } else {
        fraction := StripEnd(fraction);
        if fraction != "" { result := result + "." + fraction; }
      }
      return Success(if amount < 0 then "-" + result else result);
    }
  }

  datatype WalletRecord = WalletRecord(currency: Option<Currency>, network: Option<string>)

  /** A hash field of the liquidity key: JSON that may fail to parse. */
  datatype LiquidityField = LiquidityField(currency: Currency, parses: bool, network: Option<string>)

  datatype Redis = Redis(wallets: Option<seq<WalletRecord>>, liquidity: seq<LiquidityField>)

  /** An empty network counts as absent. */
  function Present(network: Option<string>): Option<string> {
    if network == Some("") then None else network
  }

  function Normalize(network: Option<string>): Option<Network> {
    if Present(network).None? then None else ToCryptoNetwork(network.value)
  }

  function LiquidityNetwork(fields: seq<LiquidityField>, currency: Currency): Option<Network> {
    if fields == [] then None
    else if fields[0].currency == currency
    then (if fields[0].parses then Normalize(fields[0].network) else None)
    else LiquidityNetwork(fields[1..], currency)
  }

  function WalletNetwork(wallets: seq<WalletRecord>, currency: Currency): Option<Network> {
    if wallets == [] then None
    else if wallets[0].currency == Some(currency) && Present(wallets[0].network).Some?
    then Normalize(wallets[0].network)
    else WalletNetwork(wallets[1..], currency)
  }

  function StaticNetwork(currency: Currency): Option<Network> {
    if NetworksOf(currency) != [] then Some(NetworksOf(currency)[0].id) else None
  }

  function WalletsOf(r: Redis): seq<WalletRecord> {
    if r.wallets.Some? then r.wallets.value else []
  }

  /** The resolver's answer: liquidity record, then wallet record, then the table. */
  function Resolve(r: Redis, currency: Currency): Option<Network> {
    if currency.IsFiat() then None
    else if LiquidityNetwork(r.liquidity, currency).Some? then LiquidityNetwork(r.liquidity, currency)
    else if WalletNetwork(WalletsOf(r), currency).Some? then WalletNetwork(WalletsOf(r), currency)
    else StaticNetwork(currency)
  }

  /** A primed cache takes networks as they stand, without the provider's names for them. */
  function RawNetwork(network: Option<string>): Option<Network> {
    if Present(network).None? then None else Some(NetworkOf(network.value))
  }

  function PrimeWallets(cache: NetworkCache, wallets: seq<WalletRecord>): NetworkCache
    decreases |wallets|
  {
    if wallets == [] then cache
    else
      var w := wallets[|wallets| - 1];
      var before := PrimeWallets(cache, wallets[..|wallets| - 1]);
      if w.currency.Some? then SetCached(before, w.currency.value, RawNetwork(w.network)) else before
  }

  function PrimeLiquidity(cache: NetworkCache, fields: seq<LiquidityField>): NetworkCache
    decreases |fields|
  {
    if fields == [] then cache
    else
      var f := fields[|fields| - 1];
      var before := PrimeLiquidity(cache, fields[..|fields| - 1]);
      if f.parses then SetCached(before, f.currency, RawNetwork(f.network)) else before
  }

  function Prime(cache: NetworkCache, r: Redis): NetworkCache {
    PrimeLiquidity(PrimeWallets(cache, WalletsOf(r)), r.liquidity)
  }

  class CompanyWalletNetworkCache {
    const converter: ConvertCurrency
    var redis: Redis

    constructor (converter: ConvertCurrency, redis: Redis)
      ensures this.converter == converter && this.redis == redis
    {
      this.converter := converter;
      this.redis := redis;
    }

    /** The resolver.  Whatever Redis holds, each answer is offered to the converter's cache. */
    method GetDefaultNetwork(currency: Currency) returns (r: Option<Network>)
      modifies converter
      ensures r == Resolve(redis, currency)
      ensures converter.defaultNetworkCache == SetCached(old(converter.defaultNetworkCache), currency, r)
    {
      if currency.IsFiat() { return None; }
      r := LiquidityNetwork(redis.liquidity, currency);
      converter.SetCachedDefaultNetwork(currency, r);
      if r.Some? { return; }
      r := WalletNetwork(WalletsOf(redis), currency);
      converter.SetCachedDefaultNetwork(currency, r);
      if r.Some? { return; }
      r := StaticNetwork(currency);
      converter.SetCachedDefaultNetwork(currency, r);
    }

    method PrimeDefaultNetworkCache()
      modifies converter
      ensures converter.defaultNetworkCache == Prime(old(converter.defaultNetworkCache), redis)
    {
      var wallets := WalletsOf(redis);
      for i := 0 to |wallets|
        invariant converter.defaultNetworkCache == PrimeWallets(old(converter.defaultNetworkCache), wallets[..i])
      {
        assert wallets[..i + 1][..i] == wallets[..i];
        if wallets[i].currency.Some? && Present(wallets[i].network).Some? {
          converter.SetCachedDefaultNetwork(wallets[i].currency.value, RawNetwork(wallets[i].network));
        }
      }
      assert wallets[..|wallets|] == wallets;
      ghost var primed := converter.defaultNetworkCache;
      var fields := redis.liquidity;
      for i := 0 to |fields|
        invariant converter.defaultNetworkCache == PrimeLiquidity(primed, fields[..i])
      {
        assert fields[..i + 1][..i] == fields[..i];
        if fields[i].parses {
          converter.SetCachedDefaultNetwork(fields[i].currency, RawNetwork(fields[i].network));
        }
      }
      assert fields[..|fields|] == fields;
    }
  }

  // ---------------------------------------------------------------- any sequence of cache updates

  datatype CacheOp =
    | Set(currency: Currency, network: Option<Network>)
    | Lookup(redis: Redis, currency: Currency)
    | PrimeAll(redis: Redis)

  /** A lookup by the converter: the resolver offers its answer, then the converter does. */
  function CacheStep(cache: NetworkCache, op: CacheOp): NetworkCache {
    match op
    case Set(currency, network) => SetCached(cache, currency, network)
    case Lookup(redis, currency) =>
      Adopt(SetCached(cache, currency, Resolve(redis, currency)), currency, Resolve(redis, currency))
    case PrimeAll(redis) => Prime(cache, redis)
  }

  function CacheRun(cache: NetworkCache, ops: seq<CacheOp>): NetworkCache
    decreases |ops|
  {
    if ops == [] then cache else CacheRun(CacheStep(cache, ops[0]), ops[1..])
  }

  /** A further operation works on the cache that the others have left. */
  lemma {:induction false} CacheRunOn(cache: NetworkCache, ops: seq<CacheOp>, op: CacheOp)
    ensures CacheRun(cache, ops + [op]) == CacheStep(CacheRun(cache, ops), op)
    decreases |ops|
  {
    hide CacheStep;
    if ops == [] {
      assert ops + [op] == [op];
    } else {
      assert (ops + [op])[0] == ops[0] && (ops + [op])[1..] == ops[1..] + [op];
      CacheRunOn(CacheStep(cache, ops[0]), ops[1..], op);
    }
  }

  lemma {:induction false} PrimeWalletsKeepsCache(cache: NetworkCache, wallets: seq<WalletRecord>)
    requires CacheInv(cache)
    ensures CacheInv(PrimeWallets(cache, wallets))
    decreases |wallets|
  {
    if wallets != [] {
      var w, rest := wallets[|wallets| - 1], wallets[..|wallets| - 1];
      PrimeWalletsKeepsCache(cache, rest);
      if w.currency.Some? { SetKeepsCache(PrimeWallets(cache, rest), w.currency.value, RawNetwork(w.network)); }
    }
  }

  lemma {:induction false} PrimeLiquidityKeepsCache(cache: NetworkCache, fields: seq<LiquidityField>)
    requires CacheInv(cache)
    ensures CacheInv(PrimeLiquidity(cache, fields))
    decreases |fields|
  {
    if fields != [] {
      var f, rest := fields[|fields| - 1], fields[..|fields| - 1];
      PrimeLiquidityKeepsCache(cache, rest);
      SetKeepsCache(PrimeLiquidity(cache, rest), f.currency, RawNetwork(f.network));
    }
  }

  /** After any sequence of set, lookup and prime calls, whatever Redis answers, every cached
      crypto network is in its currency's table and every allowed currency has decimals. */
  lemma {:induction false} CacheStaysSupported(cache: NetworkCache, ops: seq<CacheOp>, currency: Currency)
    requires CacheInv(cache) && currency.IsAllowed()
    ensures CacheInv(CacheRun(cache, ops))
    ensures ScaleDecimals(CacheRun(cache, ops), currency, Unspecified).Success?
    decreases |ops|
  {
    if ops == [] {
      DecimalsExist(cache, currency);
    } else {
      match ops[0] {
        case Set(c, n) => SetKeepsCache(cache, c, n);
        case Lookup(redis, c) =>
          SetKeepsCache(cache, c, Resolve(redis, c));
          SetKeepsCache(SetCached(cache, c, Resolve(redis, c)), c, Resolve(redis, c));
        case PrimeAll(redis) =>
          PrimeWalletsKeepsCache(cache, WalletsOf(redis));
          PrimeLiquidityKeepsCache(PrimeWallets(cache, WalletsOf(redis)), redis.liquidity);
      }
      CacheStaysSupported(CacheStep(cache, ops[0]), ops[1..], currency);
    }
  }

  /** The resolver itself may answer with a network the currency does not have; a lookup then keeps
      the default that the operations before it left. */
  lemma ResolverMayBeIgnored(cache: NetworkCache, ops: seq<CacheOp>, redis: Redis, currency: Currency)
    requires currency.IsCrypto()
    ensures var answer := Resolve(redis, currency);
      GetCached(CacheRun(cache, ops + [Lookup(redis, currency)]), currency)
      == if answer.Some? && Supports(currency, answer.value) then OnNetwork(answer.value)
         else GetCached(CacheRun(cache, ops), currency)
  {
    CacheRunOn(cache, ops, Lookup(redis, currency));
    LookupMayBeIgnored(CacheRun(cache, ops), redis, currency);
  }

  lemma LookupMayBeIgnored(cache: NetworkCache, redis: Redis, currency: Currency)
    requires currency.IsCrypto()
    ensures var answer := Resolve(redis, currency);
      GetCached(CacheStep(cache, Lookup(redis, currency)), currency)
      == if answer.Some? && Supports(currency, answer.value) then OnNetwork(answer.value)
         else GetCached(cache, currency)
  {
    var answer := Resolve(redis, currency);
    AdoptedNetwork(cache, currency, answer);
    AdoptedNetwork(SetCached(cache, currency, answer), currency, answer);
  }

  // ---------------------------------------------------------------- priming against resolving

  /** A hash has one field for each currency. */
  predicate OneField(fields: seq<LiquidityField>, currency: Currency, i: nat) {
    i < |fields| && fields[i].currency == currency
    && forall j :: 0 <= j < |fields| && j != i ==> fields[j].currency != currency
  }

  lemma {:induction false} OtherFieldsKeepDefault(cache: NetworkCache, fields: seq<LiquidityField>, currency: Currency)
    requires forall j :: 0 <= j < |fields| ==> fields[j].currency != currency
    ensures GetCached(PrimeLiquidity(cache, fields), currency) == GetCached(cache, currency)
    decreases |fields|
  {
    hide NetworksOf, Find;
    if fields != [] { OtherFieldsKeepDefault(cache, fields[..|fields| - 1], currency); }
  }

  lemma {:induction false} PrimedByField(cache: NetworkCache, fields: seq<LiquidityField>, currency: Currency, i: nat)
    requires currency.IsCrypto() && OneField(fields, currency, i)
    ensures GetCached(PrimeLiquidity(cache, fields), currency)
         == if fields[i].parses && RawNetwork(fields[i].network).Some?
               && Supports(currency, RawNetwork(fields[i].network).value)
            then OnNetwork(RawNetwork(fields[i].network).value)
            else GetCached(cache, currency)
    decreases |fields|
  {
    TablesAreConsistent(currency);
    hide NetworksOf, Find, RawNetwork;
    var n := |fields| - 1;
    if i < n {
      PrimedByField(cache, fields[..n], currency, i);
    } else {
      OtherFieldsKeepDefault(cache, fields[..n], currency);
    }
  }

  lemma {:induction false} FieldIsFound(fields: seq<LiquidityField>, currency: Currency, i: nat)
    requires OneField(fields, currency, i) && fields[i].parses
    ensures LiquidityNetwork(fields, currency) == Normalize(fields[i].network)
  {
    hide Normalize;
    if i > 0 { FieldIsFound(fields[1..], currency, i - 1); }
  }

  /** The resolver reads a name without regard to spaces around it and to the case of its letters,
      as an id or as the provider's name. */
  lemma NamesAreRead(a: string, name: string, b: string)
    requires AmountTexts.Spaces(a) && AmountTexts.Spaces(b) && AmountTexts.Tight(name)
    ensures var lower := seq(|name|, i requires 0 <= i < |name| =>
        if 'A' <= name[i] <= 'Z' then (name[i] as int - 'A' as int + 'a' as int) as char else name[i]);
      ToCryptoNetwork(a + name + b)
      == if lower in NETWORK_IDS then Some(NETWORK_IDS[lower])
         else if lower in NETWORK_ALIASES then Some(NETWORK_ALIASES[lower])
         else None
  {
    hide Trim;
    assert Lower(a + name + b) == Lower(a) + Lower(name) + Lower(b);
    AmountTexts.TrimOf(Lower(a), Lower(name), Lower(b));
    assert Lower(name) == seq(|name|, i requires 0 <= i < |name| =>
      if 'A' <= name[i] <= 'Z' then (name[i] as int - 'A' as int + 'a' as int) as char else name[i]);
  }

  /** The record names a network of the currency; an empty name is none. */
  predicate Names(w: WalletRecord, currency: Currency) {
    w.currency == Some(currency) && w.network.Some? && w.network.value != ""
  }

  /** The resolver takes the first wallet record that names a network, if there is one. */
  lemma {:induction false} WalletIsFound(wallets: seq<WalletRecord>, currency: Currency, i: nat)
    requires i <= |wallets| && forall j :: 0 <= j < i ==> !Names(wallets[j], currency)
    requires i < |wallets| ==> Names(wallets[i], currency)
    ensures WalletNetwork(wallets, currency)
         == if i < |wallets| then ToCryptoNetwork(wallets[i].network.value) else None
    decreases |wallets|
  {
    hide ToCryptoNetwork;
    if i > 0 { WalletIsFound(wallets[1..], currency, i - 1); }
  }

  /** No liquidity record of the currency names a network that is known. */
  predicate NoLiquidity(fields: seq<LiquidityField>, currency: Currency) {
    forall j :: 0 <= j < |fields| && fields[j].currency == currency && fields[j].parses ==>
                  fields[j].network == None || fields[j].network == Some("")
                  || ToCryptoNetwork(fields[j].network.value).None?
  }

  lemma {:induction false} NoLiquidityNetwork(fields: seq<LiquidityField>, currency: Currency)
    requires NoLiquidity(fields, currency)
    ensures LiquidityNetwork(fields, currency).None?
  {
    hide ToCryptoNetwork;
    if fields != [] { NoLiquidityNetwork(fields[1..], currency); }
  }

  /** The order in which the resolver looks: the liquidity record, if it parses and names a known
      network; else the first wallet record `i` that names one, if it is known; else the default of
      the currency.  Fiat currencies have none. */
  lemma ResolvesInOrder(redis: Redis, currency: Currency, f: nat, i: nat)
    requires var ws := WalletsOf(redis);
      i <= |ws| && (forall j :: 0 <= j < i ==> !Names(ws[j], currency)) && (i < |ws| ==> Names(ws[i], currency))
    ensures var ws := if redis.wallets.Some? then redis.wallets.value else [];
      var fields := redis.liquidity;
      var fiat := currency.NGN? || currency.USD? || (currency.Other? && currency.fiat);
      && (fiat ==> Resolve(redis, currency) == None)
      && (!fiat && OneField(fields, currency, f) && fields[f].parses && fields[f].network.Some?
          && fields[f].network.value != "" && ToCryptoNetwork(fields[f].network.value).Some? ==>
            Resolve(redis, currency) == ToCryptoNetwork(fields[f].network.value))
      && (!fiat && NoLiquidity(fields, currency) ==>
            Resolve(redis, currency)
            == if i < |ws| && ToCryptoNetwork(ws[i].network.value).Some? then ToCryptoNetwork(ws[i].network.value)
               else if NetworksOf(currency) != [] then Some(NetworksOf(currency)[0].id)
               else None)
  {
    hide ToCryptoNetwork, NetworksOf;
    WalletIsFound(WalletsOf(redis), currency, i);
    if OneField(redis.liquidity, currency, f) && redis.liquidity[f].parses {
      FieldIsFound(redis.liquidity, currency, f);
    }
    if NoLiquidity(redis.liquidity, currency) { NoLiquidityNetwork(redis.liquidity, currency); }
  }

  /** The record gives priming a network that the currency has. */
  predicate Primes(w: WalletRecord, currency: Currency) {
    Names(w, currency) && Supports(currency, NetworkOf(w.network.value))
  }

  /** Priming from the wallets leaves the network of the last record that gives one, and the previous
      default if none does. */
  lemma {:induction false} PrimedByWallet(cache: NetworkCache, wallets: seq<WalletRecord>, currency: Currency, i: int)
    requires currency.IsCrypto() && -1 <= i < |wallets|
    requires forall j :: i < j < |wallets| ==> !Primes(wallets[j], currency)
    requires i >= 0 ==> Primes(wallets[i], currency)
    ensures GetCached(PrimeWallets(cache, wallets), currency)
         == if i >= 0 then OnNetwork(NetworkOf(wallets[i].network.value)) else GetCached(cache, currency)
    decreases |wallets|
  {
    TablesAreConsistent(currency);
    hide NetworksOf, Find, NetworkOf;
    var n := |wallets| - 1;
    if n >= 0 && i < n { PrimedByWallet(cache, wallets[..n], currency, i); }
  }

  lemma IdsAreTrimmed(id: string)
    requires id in NETWORK_IDS
    ensures Trim(id) == id
  {
    assert id in {"btc", "bep20", "erc20", "trc20", "polygon", "solana", "celo", "optimism", "ton", "base", "doge", "ripple"};
    assert !IsSpace(id[0]) && !IsSpace(id[|id| - 1]);
  }

  /** A liquidity record that names a network `n` of the currency, by its id or by the provider's
      name for it.  Resolving leads to `n`; priming sets `n` when the name is an id without spaces
      around it, and otherwise keeps the default that the wallet records left. */
  lemma PrimingAgainstResolving(cache: NetworkCache, redis: Redis, currency: Currency, i: nat, name: string, n: Network)
    requires currency.IsCrypto() && OneField(redis.liquidity, currency, i)
    requires redis.liquidity[i] == LiquidityField(currency, true, Some(name))
    requires Normalize(Some(name)) == Some(n) && Supports(currency, n)
    ensures Resolve(redis, currency) == Some(n)
    ensures GetCached(CacheStep(cache, Lookup(redis, currency)), currency) == OnNetwork(n)
    ensures GetCached(CacheStep(cache, PrimeAll(redis)), currency)
         == if Lower(name) in NETWORK_IDS then OnNetwork(n)
            else GetCached(PrimeWallets(cache, WalletsOf(redis)), currency)
  {
    PrimedByField(PrimeWallets(cache, WalletsOf(redis)), redis.liquidity, currency, i);
    FieldIsFound(redis.liquidity, currency, i);
    AdoptedNetwork(cache, currency, Some(n));
    AdoptedNetwork(SetCached(cache, currency, Some(n)), currency, Some(n));
    TablesAreConsistent(currency);
    hide NetworksOf, Trim, PrimeWallets, PrimeLiquidity, LiquidityNetwork;
    if Lower(name) in NETWORK_IDS { IdsAreTrimmed(Lower(name)); }
  }
}

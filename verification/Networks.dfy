/** The currencies, their networks and the decimals of each.  Names are compared without
    regard to case in the source; here a name is read once, by CurrencyOf or NetworkOf. */
module Networks {
  import opened Wrappers

  /** The allowed currencies, and any other code, which may be that of a fiat currency. */
  datatype Currency =
    | BTC | USDT | USDC | ETH | BNB | DOGE | XRP | SOL | LINK | TRX
    | NGN | USD
    | Other(code: string, fiat: bool)
  {
    predicate IsFiat() {
      NGN? || USD? || (Other? && fiat)
    }

    predicate IsAllowed() {
      !Other?
    }

    predicate IsCrypto() {
      !Other? && !IsFiat()
    }
  }

  datatype Network =
    | Btc | Bep20 | Erc20 | Trc20 | Polygon | Solana | Celo | Optimism | Ton | Base | Doge | Ripple
    | Unknown(name: string)

  datatype NetworkInfo = NetworkInfo(id: Network, decimals: nat)

  function LowerChar(c: char): char {
    if 'A' <= c <= 'Z' then (c as int + 32) as char else c
  }

  /** `toLowerCase` on the Latin letters. */
  function Lower(s: string): string {
    seq(|s|, i requires 0 <= i < |s| => LowerChar(s[i]))
  }

  predicate IsSpace(c: char) {
    c == ' ' || '\t' <= c <= '\r' || '\U{2000}' <= c <= '\U{200A}' || c in [
      '\U{00A0}', '\U{1680}', '\U{2028}', '\U{2029}', '\U{202F}', '\U{205F}', '\U{3000}', '\U{FEFF}']
  }

  /** White space and line terminators are those of sections 12.2 and 12.3 of ECMA-262. */
  lemma SpacesAreListed(c: char)
    ensures IsSpace(c) <==> c as int in {
      0x9, 0xA, 0xB, 0xC, 0xD, 0x20, 0xA0, 0x1680, 0x2000, 0x2001, 0x2002, 0x2003, 0x2004, 0x2005, 0x2006, 0x2007,
      0x2008, 0x2009, 0x200A, 0x2028, 0x2029, 0x202F, 0x205F, 0x3000, 0xFEFF}
  {}

  function TrimStart(s: string): string {
    if s != "" && IsSpace(s[0]) then TrimStart(s[1..]) else s
  }

  function TrimEnd(s: string): string {
    if s != "" && IsSpace(s[|s| - 1]) then TrimEnd(s[..|s| - 1]) else s
  }

  /** `s.trim()`. */
  function Trim(s: string): string {
    TrimEnd(TrimStart(s))
  }

  const NETWORK_IDS: map<string, Network> := map[
    "btc" := Btc, "bep20" := Bep20, "erc20" := Erc20, "trc20" := Trc20, "polygon" := Polygon,
    "solana" := Solana, "celo" := Celo, "optimism" := Optimism, "ton" := Ton, "base" := Base,
    "doge" := Network.Doge, "ripple" := Ripple]

  const NETWORK_ALIASES: map<string, Network> := map[
    "bitcoin" := Btc, "ethereum" := Erc20, "tron" := Trc20, "binance smart chain" := Bep20,
    "polygon network" := Polygon, "solana network" := Solana, "celo network" := Celo,
    "optimism network" := Optimism, "ton network" := Ton, "base network" := Base]

  /** A network id as it stands, in lower case. */
  function NetworkOf(id: string): Network {
    if Lower(id) in NETWORK_IDS then NETWORK_IDS[Lower(id)] else Unknown(Lower(id))
  }

  /** `toCryptoNetwork`: also reads the provider's names; None stands for the exception. */
  function ToCryptoNetwork(raw: string): Option<Network> {
    var lower := Trim(Lower(raw));
    if lower in NETWORK_IDS then Some(NETWORK_IDS[lower])
    else if lower in NETWORK_ALIASES then Some(NETWORK_ALIASES[lower])
    else None
  }

  /** The networks of a currency, the default one first; empty for a currency without a table. */
  function NetworksOf(currency: Currency): seq<NetworkInfo> {
    match currency
    case BNB => [NetworkInfo(Bep20, 18)]
    case BTC => [NetworkInfo(Btc, 8), NetworkInfo(Bep20, 18)]
    case USDT => [
      NetworkInfo(Bep20, 18), NetworkInfo(Erc20, 6), NetworkInfo(Trc20, 6), NetworkInfo(Polygon, 6),
      NetworkInfo(Solana, 6), NetworkInfo(Celo, 6), NetworkInfo(Optimism, 6), NetworkInfo(Ton, 6)]
    case USDC => [
      NetworkInfo(Bep20, 18), NetworkInfo(Erc20, 6), NetworkInfo(Trc20, 6), NetworkInfo(Polygon, 6),
      NetworkInfo(Solana, 6), NetworkInfo(Base, 6)]
    case ETH => [NetworkInfo(Erc20, 18), NetworkInfo(Bep20, 18), NetworkInfo(Base, 18)]
    case TRX => [NetworkInfo(Trc20, 6)]
    case SOL => [NetworkInfo(Solana, 9), NetworkInfo(Bep20, 18)]
    case DOGE => [NetworkInfo(Network.Doge, 8)]
    case XRP => [NetworkInfo(Ripple, 6)]
    case LINK => [NetworkInfo(Bep20, 18)]
    case _ => []
  }

  /** The entry of a network in a table. */
  function Find(table: seq<NetworkInfo>, id: Network): (r: Option<NetworkInfo>)
    ensures r.Some? ==> r.value in table && r.value.id == id
    ensures r.None? ==> forall n :: n in table ==> n.id != id
  {
    if table == [] then None
    else if table[0].id == id then Some(table[0])
    else Find(table[1..], id)
  }

  predicate Supports(currency: Currency, id: Network) {
    Find(NetworksOf(currency), id).Some?
  }

  /** Which networks a currency has. */
  lemma NetworksAreListed(currency: Currency, id: Network)
    ensures Supports(currency, id) <==> id in match currency
      case BNB | LINK => {Bep20}
      case BTC => {Btc, Bep20}
      case USDT => {Bep20, Erc20, Trc20, Polygon, Solana, Celo, Optimism, Ton}
      case USDC => {Bep20, Erc20, Trc20, Polygon, Solana, Base}
      case ETH => {Erc20, Bep20, Base}
      case TRX => {Trc20}
      case SOL => {Solana, Bep20}
      case DOGE => {Network.Doge}
      case XRP => {Ripple}
      case _ => {}
  {
    SupportsIff(currency, id);
    hide Supports, Find;
  }

  lemma SupportsIff(currency: Currency, id: Network)
    ensures Supports(currency, id) <==>
      || NetworkInfo(id, 6) in NetworksOf(currency) || NetworkInfo(id, 8) in NetworksOf(currency)
      || NetworkInfo(id, 9) in NetworksOf(currency) || NetworkInfo(id, 18) in NetworksOf(currency)
  {
    TablesAreConsistent(currency);
    hide NetworksOf;
    var r := Find(NetworksOf(currency), id);
    if r.Some? { assert r.value == NetworkInfo(id, r.value.decimals); }
  }

  /** Exactly the crypto currencies have a table, of known networks.  Amounts have 18 decimals on
      BEP20 and for ETH, 9 for SOL on its own network, 8 on those of BTC and DOGE, and 6 elsewhere. */
  lemma TablesAreConsistent(currency: Currency)
    ensures currency.IsCrypto() <==> NetworksOf(currency) != []
    ensures currency.IsCrypto() ==> Supports(currency, NetworksOf(currency)[0].id)
    ensures forall n :: n in NetworksOf(currency) ==>
      && !n.id.Unknown?
      && n.decimals == if n.id.Bep20? || currency.ETH? then 18
                       else if n.id.Solana? && currency.SOL? then 9
                       else if n.id.Btc? || n.id.Doge? then 8
                       else 6
  {}
}

/** A balance of which a part is reserved: a wallet's baseBalance and reservedBalance, or the
    totalBalance and reservedBalance of company liquidity. */
module Pots {
  import opened Wrappers

  datatype Pot = Pot(total: int, reserved: int)

  /** No more is reserved than there is. */
  predicate Solvent(p: Pot) {
    0 <= p.reserved <= p.total
  }

  /** `reserveBalance` and `reserveLiquidity`: all of the sum or nothing. */
  function ReservePot(p: Pot, n: nat): Option<Pot> {
    if p.total - p.reserved >= n then Some(p.(reserved := p.reserved + n)) else None
  }

  /** `releaseBalance` and `releaseLiquidity`, with a failure that is swallowed: the pot after it, and
      what it gave back. */
  function ReleaseOrKeep(p: Pot, n: nat): (r: (Pot, nat))
    ensures r.0 == p.(reserved := p.reserved - r.1)
  {
    if p.reserved >= n then (p.(reserved := p.reserved - n), n) else (p, 0)
  }
}

/** Integer division by a positive divisor. */
module Rounding {

  lemma MulMonotone(a: int, b: int, d: nat)
    requires a <= b
    ensures a * d <= b * d
  {
    assert (b - a) * d >= 0;
  }

  lemma FloorBounds(m: nat, d: nat)
    requires d > 0
    ensures (m / d) * d <= m < (m / d) * d + d
  {
    assert m == d * (m / d) + m % d;
  }

  function Quot(n: nat, d: nat): (q: nat)
    requires d > 0
  {
    n / d
  }

  function Rem(n: nat, d: nat): (r: nat)
    requires d > 0
    ensures r < d && Quot(n, d) * d + r == n
  {
    FloorBounds(n, d);
    n - Quot(n, d) * d
  }

  /** Quotient and remainder are the only such pair. */
  lemma QuotRemUnique(q: nat, r: nat, d: nat)
    requires r < d
    ensures Quot(q * d + r, d) == q && Rem(q * d + r, d) == r
  {
    var n := q * d + r;
    var q', r' := Quot(n, d), Rem(n, d);
    assert (q + 1) * d == q * d + d && (q' + 1) * d == q' * d + d;
    if q < q' {
      MulMonotone(q + 1, q', d);
    } else if q' < q {
      MulMonotone(q' + 1, q, d);
    }
  }

  /** The quotient rounded up, for a non-negative dividend. */
  function CeilDiv(n: nat, d: nat): nat
    requires d > 0
  {
    (n + d - 1) / d
  }

  /** It is the least integer whose multiple of `d` is not below `n`. */
  lemma CeilDivIsLeast(n: nat, d: nat, other: nat)
    requires d > 0
    ensures CeilDiv(n, d) * d >= n
    ensures CeilDiv(n, d) * d < n + d
    ensures other >= CeilDiv(n, d) <==> other * d >= n
  {
    var q := CeilDiv(n, d);
    FloorBounds(n + d - 1, d);
    if other < q {
      MulMonotone(other, q - 1, d);
      assert (q - 1) * d == q * d - d;
    } else {
      MulMonotone(q, other, d);
    }
  }

  lemma CeilDivExact(a: nat, d: nat)
    requires d > 0
    ensures CeilDiv(a * d, d) == a
  {
    CeilDivIsLeast(a * d, d, a);
    if a > 0 {
      CeilDivIsLeast(a * d, d, a - 1);
      assert (a - 1) * d == a * d - d;
    }
  }
}

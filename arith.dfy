/** Integer helpers shared by the pagination and statistics modules. */
module Arith {
  /**
   * `Math.ceil(n / d)` for a whole `n` and a positive whole `d`: the least
   * whole `q` with `n <= q * d`.
   */
  function CeilDiv(n: int, d: int): (q: int)
    requires d > 0
    ensures (q - 1) * d < n <= q * d
    ensures 0 <= n ==> 0 <= q
    ensures 0 <= n ==> (q == 0 <==> n == 0)
  {
    -((-n) / d)
  }

  /** Multiplying by a non-negative factor keeps `<=`. */
  lemma MulLe(k: nat, a: int, b: int)
    requires a <= b
    ensures k * a <= k * b
  {
  }

  /** More than one page is needed exactly when `n` exceeds the page size. */
  lemma CeilDivAboveOne(n: nat, d: int)
    requires d > 0
    ensures CeilDiv(n, d) > 1 <==> n > d
  {
    var q := CeilDiv(n, d);
    if q > 1 {
      var r := q - 1;
      assert r * d >= d by {
        MulLe(d, 1, r);
      }
    } else if q == 1 {
      assert q * d == d;
    }
  }
}

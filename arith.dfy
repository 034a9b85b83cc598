/** Facts about natural-number multiplication and division that the
    accounting and the countdown both rely on. */
module Arith {

  lemma MulMonotone(a: nat, b: nat, c: nat)
    requires a <= b
    ensures a * c <= b * c
  {
    if c > 0 {
      MulMonotone(a, b, c - 1);
    }
  }

  /** Dividing `k * m + r` by `m`, with `r < m`, gives back `k` and `r`. */
  lemma DivModOfMultiplePlus(k: nat, m: nat, r: nat)
    requires m > 0 && r < m
    ensures (k * m + r) / m == k && (k * m + r) % m == r
  {
    var n := k * m + r;
    var q := n / m;
    var s := n % m;
    assert q * m + s == n;
    if q > k {
      MulMonotone(k + 1, q, m);
      assert false;
    }
    if q < k {
      MulMonotone(q + 1, k, m);
      assert false;
    }
  }
}

/** Facts about products and quotients that several modules need. */
module Arithmetic {

  lemma CancelFactor(x: int, y: int, d: nat)
    requires d > 0 && x * d < y * d
    ensures x < y
  {
    assert (y - x) * d > 0;
  }

  lemma QuotientUnique(x: nat, d: nat, q: nat)
    requires d > 0 && q * d <= x < (q + 1) * d
    ensures x / d == q && x % d == x - q * d
  {
    var r := x / d;
    assert x == r * d + x % d;
    assert (r + 1) * d == r * d + d;
    CancelFactor(q, r + 1, d);
    CancelFactor(r, q + 1, d);
  }
}

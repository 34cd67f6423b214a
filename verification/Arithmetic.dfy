// Counting and division, shared by the other modules.
module Arithmetic {

  /** One for what happens or holds, zero otherwise. */
  function AsCount(b: bool): (n: nat) { if b then 1 else 0 }

  lemma AtLeast(a: int, d: nat)
    ensures a >= 1 ==> a * d >= d
  {
  }

  /** A quotient and a remainder that fit are the quotient and the remainder. */
  lemma Quotient(x: int, d: nat, q: int, r: nat)
    requires d > 0 && x == q * d + r && r < d
    ensures x / d == q && x % d == r
  {
    var k, m := x / d, x % d;
    assert x == k * d + m && 0 <= m < d;
    assert (k - q) * d == r - m;
    AtLeast(k - q, d);
    AtLeast(q - k, d);
    assert (q - k) * d == m - r;
  }
}

/** Division of natural numbers. */
module Arithmetic {
  lemma NonZeroMultiple(d: int, p: nat)
    ensures d >= 1 ==> d * p >= p
    ensures d <= -1 ==> d * p + p <= 0
  {
  }

  lemma DivisionIs(x: nat, q: nat, p: nat, r: nat)
    requires r < p && x == q * p + r
    ensures x / p == q && x % p == r
  {
    var d := x / p - q;
    assert x == x / p * p + x % p;
    assert d * p == r - x % p;
    NonZeroMultiple(d, p);
  }
}

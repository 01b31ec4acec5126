/** The few facts about products and quotients the models need, proved once. */
module Arithmetic {

  lemma {:induction false} MulGrows(q: nat, a: nat, b: nat)
    requires a <= b
    ensures q * a <= q * b
    ensures a < b ==> q * a + q <= q * b
    decreases b - a
  {
    if a < b {
      assert q * (b - 1) + q == q * b;
      MulGrows(q, a, b - 1);
    }
  }

  /** A quotient and remainder are determined by the division identity. */
  lemma QuotientIsUnique(q: nat, x: nat, k: nat, r: nat)
    requires q >= 1 && x == q * k + r && r < q
    ensures x / q == k && x % q == r
  {
    var z := x / q;
    assert x == q * z + x % q;
    if z < k {
      MulGrows(q, z, k);
    } else if z > k {
      MulGrows(q, k, z);
    }
  }
}

/** Facts about products and division that the solver needs one at a time. */
module Arithmetic {

  lemma MulMonotone(a: nat, b: nat, u: nat)
    requires a <= b
    ensures a * u <= b * u
  {
  }

  lemma MulAssociative(a: nat, b: nat, c: nat)
    ensures a * (b * c) == a * b * c
  {
  }

  lemma NextMultiple(k: nat, u: nat)
    ensures (k + 1) * u == k * u + u
  {
  }

  lemma DivMod(n: nat, u: nat)
    requires u > 0
    ensures n == n / u * u + n % u && n / u * u <= n < (n / u + 1) * u && 0 <= n % u < u
  {
    assert (n / u + 1) * u == n / u * u + u;
  }

  lemma Remainder(n: nat, u: nat, k: nat, r: nat)
    requires r < u && n == k * u + r
    ensures n / u == k && n % u == r
  {
    DivMod(n, u);
    if n / u < k {
      MulMonotone(n / u + 1, k, u);
    } else if n / u > k {
      MulMonotone(k + 1, n / u, u);
    }
  }
}

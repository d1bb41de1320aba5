/** Division facts that the solver does not find by itself. */
module Arithmetic {
  lemma Multiples(d: int, f: nat)
    ensures d >= 1 ==> d * f >= f
    ensures d <= -1 ==> d * f <= 0 - f
  {
  }

  lemma QuotientUnique(n: nat, f: nat, q: nat, r: nat)
    requires f > 0 && r < f && n == q * f + r
    ensures n / f == q && n % f == r
  {
    var d := n / f - q;
    assert n == n / f * f + n % f;
    assert d * f == r - n % f;
    Multiples(d, f);
  }
}

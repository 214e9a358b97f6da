// Facts about products and quotients of naturals that the address computations share.

module Arith {
  lemma MulMono(a: nat, b: nat, k: nat)
    ensures a <= b ==> a * k <= b * k
  {
    if a <= b { MulDist(a, b - a, k); }
  }

  lemma MulDist(a: int, b: int, k: int)
    ensures (a + b) * k == a * k + b * k
  {
  }

  lemma MulAssoc(a: int, b: int, k: int)
    ensures (a * b) * k == a * (b * k)
  {
  }

  lemma DivModUnique(q: nat, r: nat, d: nat)
    requires r < d
    ensures (q * d + r) / d == q && (q * d + r) % d == r
  {
    var n := q * d + r;
    var q', r' := n / d, n % d;
    assert q' * d + r' == n;
    MulMono(q' + 1, q, d);
    MulMono(q + 1, q', d);
    MulDist(q', 1, d);
    MulDist(q, 1, d);
  }

  // Reduction of a value that has wrapped at most once.
  lemma ModWrap(x: nat, n: nat)
    requires x < 2 * n
    ensures x % n == if x < n then x else x - n
  {
    if x < n { DivModUnique(0, x, n); } else { DivModUnique(1, x - n, n); }
  }
}

/** Small facts of integer multiplication and Euclidean division used by the other modules. */
module Arith {

  lemma MulMono(a: int, b: int, p: int)
    requires a <= b && p >= 0
    ensures a * p <= b * p
  {
  }

  lemma MulAtLeast(a: int, b: int, c: int, d: int)
    requires a >= c >= 0 && b >= d >= 0
    ensures a * b >= c * d
  {
  }

  lemma MulSucc(n: int, p: int)
    ensures (n + 1) * p == n * p + p
  {
  }

  /** Quotient and remainder are unique: x == q * p + r with 0 <= r < p fixes both. */
  lemma DivModUnique(x: int, p: int, q: int, r: int)
    requires p >= 1 && 0 <= r < p && x == q * p + r
    ensures x / p == q && x % p == r
  {
    var q', r' := x / p, x % p;
    assert x == q' * p + r';
    assert (q - q') * p == r' - r;
    if q' < q {
      MulAtLeast(q - q', p, 1, p);
    } else if q' > q {
      MulAtLeast(q' - q, p, 1, p);
    }
  }

  /**
   * Two mixed-radix digits: e below a weight p and t below a radix d. Their
   * value e + t * p is one short of d * p exactly when both are at their
   * largest.
   */
  lemma MixedFull(e: int, p: int, t: int, d: int)
    requires 0 <= e < p && 0 <= t < d
    ensures e + t * p + 1 == d * p <==> e + 1 == p && t + 1 == d
  {
    MulSucc(t, p);
    if e + 1 == p && t + 1 == d {
    } else if e + 1 < p {
      MulMono(t + 1, d, p);
    } else {
      MulSucc(t + 1, p);
      MulMono(t + 2, d, p);
    }
  }
}

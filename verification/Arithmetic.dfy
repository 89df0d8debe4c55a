/** Facts about division that the solver does not find by itself. */
module Arithmetic {
  lemma MulGrows(a: int, t: int)
    requires a >= 1 && t > 0
    ensures a * t >= t
  {
    assert (a - 1) * t >= 0;
    assert (a - 1) * t == a * t - t;
  }

  lemma RemainderUnique(x: int, t: int, q: int, y: int)
    requires t > 0 && x == q * t + y && 0 <= y < t
    ensures x % t == y
  {
    var p, r := x / t, x % t;
    assert x == p * t + r;
    assert (q - p) * t == q * t - p * t && (p - q) * t == p * t - q * t;
    if p < q {
      MulGrows(q - p, t);
    } else if q < p {
      MulGrows(p - q, t);
    }
  }
}

/** Quotients and remainders. */
module Division {

  lemma AtLeastOnce(d: int, k: int)
    requires 0 < d && 0 < k
    ensures d * k >= d
  {
  }

  /** Quotient and remainder are determined by the division equation. */
  lemma DivMod(x: int, d: int, q: int, r: int)
    requires 0 < d && x == q * d + r && 0 <= r < d
    ensures x / d == q && x % d == r
  {
    var q', r' := x / d, x % d;
    assert d * (q' - q) == r - r';
    if q' > q {
      AtLeastOnce(d, q' - q);
    } else if q > q' {
      assert d * (q - q') == r' - r;
      AtLeastOnce(d, q - q');
    }
  }
}

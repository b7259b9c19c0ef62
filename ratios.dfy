/**
 * Facts about quotients and products of reals that the weight formulas use:
 * a count divided by a positive total, then scaled by a non-negative factor.
 */
module Ratios {
  lemma SelfQuotient(m: real)
    requires m > 0.0
    ensures m / m == 1.0
  {
  }

  /** Dividing by a positive number keeps the order. */
  lemma QuotientMonotone(a: real, b: real, m: real)
    requires a <= b && m > 0.0
    ensures a / m <= b / m
  {
  }

  lemma QuotientPositive(a: real, m: real)
    requires a > 0.0 && m > 0.0
    ensures a / m > 0.0
  {
  }

  /** A part of a positive whole is a fraction in [0, 1), positive when the part is. */
  lemma QuotientFraction(a: real, m: real)
    requires 0.0 <= a < m
    ensures 0.0 <= a / m < 1.0
    ensures a > 0.0 ==> a / m > 0.0
  {
  }

  /** Scaling by a non-negative factor keeps the order, and a fraction of the factor stays below it. */
  lemma ScaleMonotone(a: real, b: real, f: real)
    requires 0.0 <= a <= b && f >= 0.0
    ensures 0.0 <= a * f <= b * f
    ensures b <= 1.0 ==> b * f <= f
    ensures b < 1.0 && f > 0.0 ==> b * f < f
    ensures a > 0.0 && f > 0.0 ==> a * f > 0.0
  {
  }

  /** `1 + (a / m) * f`: one plus the share `a / m` of the factor `f`. */
  function Scaled(a: real, m: real, f: real): real
    requires m != 0.0
  {
    1.0 + (a / m) * f
  }

  /** A positive fraction of a non-negative factor stays between 0 and the factor, and is positive with it. */
  lemma ScaleBelow(q: real, f: real)
    requires 0.0 < q <= 1.0 && f >= 0.0
    ensures 0.0 <= q * f <= f
    ensures f > 0.0 ==> q * f > 0.0
  {
  }

  /** For a positive part `a` of a whole `m`: between 1 and `1 + f`, above 1 for a positive factor. */
  lemma ScaledBounds(a: real, m: real, f: real)
    requires 0.0 < a <= m && f >= 0.0
    ensures 1.0 <= Scaled(a, m, f) <= 1.0 + f
    ensures f > 0.0 ==> 1.0 < Scaled(a, m, f)
  {
    QuotientMonotone(a, m, m);
    SelfQuotient(m);
    QuotientPositive(a, m);
    ScaleBelow(a / m, f);
  }

  /** A larger part gives a larger result. */
  lemma ScaledMonotone(a: real, b: real, m: real, f: real)
    requires a <= b && m > 0.0 && f >= 0.0
    ensures Scaled(a, m, f) <= Scaled(b, m, f)
  {
    QuotientMonotone(a, b, m);
    assert (a / m) * f <= (b / m) * f;
  }

  /** The whole gives `1 + f`. */
  lemma ScaledWhole(m: real, f: real)
    requires m > 0.0
    ensures Scaled(m, m, f) == 1.0 + f
  {
    SelfQuotient(m);
  }

  /** A fraction, multiplied or not by a factor of at least 1, stays between 0 and the factor. */
  lemma BoostBound(score: real, s: real, factor: real, boosted: bool)
    requires 0.0 <= s <= 1.0 && factor >= 1.0
    requires score == if boosted then s * factor else s
    ensures 0.0 <= score <= factor
  {
    if boosted {
      assert s * factor <= 1.0 * factor;
    }
  }
}

/**
 * Facts about multiplication and division of ordered numbers that the cell,
 * work-split and halving arithmetic of the grids and quadtrees build on.
 */
module Arithmetic {

  /** Multiplying by a positive factor keeps a strict order. */
  lemma MulLt(a: real, b: real, c: real)
    requires a < b && c > 0.0
    ensures a * c < b * c
  {
  }

  /** Multiplying by a positive factor keeps a non-strict order. */
  lemma MulLe(a: real, b: real, c: real)
    requires a <= b && c > 0.0
    ensures a * c <= b * c
  {
  }

  /** a * b <= c * b for a <= c and b >= 0. */
  lemma MulMonotone(a: int, c: int, b: int)
    requires 0 <= a <= c && b >= 0
    ensures a * b <= c * b
  {
    assert c * b == a * b + (c - a) * b;
  }

  /** A quotient of a number by a positive number at most as large is at least one. */
  lemma QuotientAtLeastOne(s: real, d: real)
    requires d > 0.0 && s >= d
    ensures s / d >= 1.0
  {
    var q := s / d;
    assert q * d == s;
  }

  /** A positive factor cancels. */
  lemma Cancel(a: real, b: real, d: real, c: real)
    requires d > 0.0 && a * d == c && b * d == c
    ensures a == b
  {
  }
}

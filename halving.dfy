/**
 * The termination measure both quadtrees need when they split a leaf to
 * separate two distinct points: the number of times the square can still
 * be halved before it is narrower than the distance between them.
 */
module Halving {
  import opened Vectors
  import opened Arithmetic

  /** The larger of the horizontal and vertical distances between two points. */
  function Sep(a: Vec2, b: Vec2): (d: real)
    ensures d >= 0.0
    ensures a != b ==> d > 0.0
  {
    var dx := if a.x >= b.x then a.x - b.x else b.x - a.x;
    var dy := if a.y >= b.y then a.y - b.y else b.y - a.y;
    if dx >= dy then dx else dy
  }

  /** How many times a square of side s can be halved before it is narrower than d. */
  function Levels(s: real, d: real): nat
    decreases if d > 0.0 && s >= d then (s / d).Floor else 0
  {
    if d > 0.0 && s >= d then
      HalvingShrinks(s, d);
      1 + Levels(s / 2.0, d)
    else 0
  }

  /** Halving the side lowers the whole number of times d fits in it. */
  lemma HalvingShrinks(s: real, d: real)
    requires d > 0.0 && s >= d
    ensures (if s / 2.0 >= d then ((s / 2.0) / d).Floor else 0) < (s / d).Floor
  {
    var q := s / d;
    assert q * d == s;
    QuotientAtLeastOne(s, d);
    if s / 2.0 >= d {
      var h := (s / 2.0) / d;
      assert h * d == s / 2.0;
      var g := q / 2.0;
      assert g * d == (q * d) / 2.0;
      assert g * d == s / 2.0;
      Cancel(h, g, d, s / 2.0);
      assert q >= 2.0;
      assert h.Floor as real <= h;
      assert q.Floor as real > q - 1.0;
    }
  }

  /** Halving a square that is at least twice as wide as d leaves fewer halvings. */
  lemma LevelsDecrease(s: real, d: real)
    requires 0.0 < d <= s / 2.0
    ensures Levels(s / 2.0, d) < Levels(s, d)
  {
  }
}

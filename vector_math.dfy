/**
 * The free helpers of include/vector_math_utils.hpp over sf::Vector2f.
 * squareVec and scaleVec update the vector they are handed by reference and
 * return that same object, so their argument is a heap object here; the
 * other helpers take and return vectors by value.
 */
module VectorMath {
  import opened Vectors

  /** A mutable sf::Vector2f, as passed by non-const reference. */
  class Vector2f {
    var x: real
    var y: real

    constructor(x0: real, y0: real)
      ensures x == x0 && y == y0
    {
      x := x0;
      y := y0;
    }

    /** The current value of the object. */
    function Value(): Vec2
      reads this
    {
      Vec2(x, y)
    }
  }

  /** squareVec: squares each component in place and returns the argument. */
  method SquareVec(v: Vector2f) returns (r: Vector2f)
    modifies v
    ensures r == v
    ensures v.Value() == Mul(old(v.Value()), old(v.Value()))
  {
    v.x := v.x * v.x;
    v.y := v.y * v.y;
    r := v;
  }

  /** scaleVec: multiplies both components by the scaler in place. */
  method ScaleVec(v: Vector2f, scaler: real) returns (r: Vector2f)
    modifies v
    ensures r == v
    ensures v.Value() == Scale(old(v.Value()), scaler)
  {
    v.x := v.x * scaler;
    v.y := v.y * scaler;
    r := v;
  }

  /**
   * divideVec: the componentwise quotient, without the zero check of
   * Vec2::operator/, so its caller must rule out zero divisors.
   */
  function DivideVec(a: Vec2, b: Vec2): (r: Vec2)
    requires b.x != 0.0 && b.y != 0.0
    ensures MultiplyVec(r, b) == a
  {
    Vec2(a.x / b.x, a.y / b.y)
  }

  /** multiplyVec: the componentwise product of two vectors. */
  function MultiplyVec(a: Vec2, b: Vec2): Vec2 {
    Mul(a, b)
  }

  /** dotProduct: x1*x2 + y1*y2. */
  function DotProduct(a: Vec2, b: Vec2): real {
    a.x * b.x + a.y * b.y
  }

  /** Where Vec2::operator/ succeeds it agrees with divideVec. */
  lemma DivideVecAgreesWithDiv(a: Vec2, b: Vec2)
    ensures Div(a, b).Ok? <==> b.x != 0.0 && b.y != 0.0
    ensures Div(a, b).Ok? ==> Div(a, b).value == DivideVec(a, b)
  {
  }

  /** Multiplying by b and dividing by b undo each other. */
  lemma MultiplyDivideInverse(a: Vec2, b: Vec2)
    requires b.x != 0.0 && b.y != 0.0
    ensures DivideVec(MultiplyVec(a, b), b) == a
    ensures MultiplyVec(DivideVec(a, b), b) == a
  {
  }

  /** The dot product is symmetric and is the sum of the componentwise product. */
  lemma DotProductSymmetric(a: Vec2, b: Vec2)
    ensures DotProduct(a, b) == DotProduct(b, a)
    ensures DotProduct(a, b) == MultiplyVec(a, b).x + MultiplyVec(a, b).y
  {
  }
}

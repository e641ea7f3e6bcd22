/**
 * The two-component vector of include/Vec2.hpp: componentwise arithmetic over
 * exact reals, with the checked divisions that throw std::invalid_argument
 * modelled as Err results. The same value type stands for sf::Vector2f in the
 * rest of the simulator.
 */
module Vectors {
  import opened Wrappers

  datatype Vec2 = Vec2(x: real, y: real)

  const Zero: Vec2 := Vec2(0.0, 0.0)

  /** operator+ */
  function Add(a: Vec2, b: Vec2): Vec2 {
    Vec2(a.x + b.x, a.y + b.y)
  }

  /** operator-: the vector that, added to b, gives a. */
  function Sub(a: Vec2, b: Vec2): (r: Vec2)
    ensures Add(b, r) == a
  {
    Vec2(a.x - b.x, a.y - b.y)
  }

  /** operator* with a Vec2 argument: componentwise, not a dot product. */
  function Mul(a: Vec2, b: Vec2): Vec2 {
    Vec2(a.x * b.x, a.y * b.y)
  }

  /** operator* with a float argument. */
  function Scale(a: Vec2, s: real): Vec2 {
    Vec2(a.x * s, a.y * s)
  }

  /**
   * Division of both components by a nonzero scalar, the unchecked
   * sf::Vector2f / float that the particle integrator uses.
   */
  function Quotient(a: Vec2, s: real): (r: Vec2)
    requires s != 0.0
    ensures Scale(r, s) == a
  {
    Vec2(a.x / s, a.y / s)
  }

  /**
   * operator/ with a Vec2 argument (both the const and the non-const
   * overload): throws when either divisor component is zero, otherwise
   * divides componentwise.
   */
  function Div(a: Vec2, b: Vec2): (r: Result<Vec2>)
    ensures r.Err? <==> b.x == 0.0 || b.y == 0.0
    ensures r.Err? ==> r.error == DivisionByZero
    ensures r.Ok? ==> Mul(r.value, b) == a
  {
    if b.x == 0.0 || b.y == 0.0 then Err(DivisionByZero)
    else Ok(Vec2(a.x / b.x, a.y / b.y))
  }

  /** operator/ with a float argument: throws on a zero divisor. */
  function DivScalar(a: Vec2, s: real): (r: Result<Vec2>)
    ensures r.Err? <==> s == 0.0
    ensures r.Err? ==> r.error == DivisionByZero
    ensures r.Ok? ==> Scale(r.value, s) == a
  {
    if s == 0.0 then Err(DivisionByZero) else Ok(Quotient(a, s))
  }

  /**
   * magnitude() is sqrt(x*x + y*y). The square root is not computed: a
   * candidate m is the magnitude when it is the non-negative root.
   */
  predicate IsMagnitude(v: Vec2, m: real) {
    m >= 0.0 && m * m == v.x * v.x + v.y * v.y
  }

  /**
   * normalize(): throws when the magnitude is zero, otherwise returns
   * this / magnitude(), a vector of length one pointing the same way.
   */
  function Normalize(v: Vec2, mag: real): (r: Result<Vec2>)
    requires IsMagnitude(v, mag)
    ensures r.Err? <==> mag == 0.0
    ensures r.Err? ==> r.error == ZeroVectorNormalization
    ensures r.Ok? ==> Scale(r.value, mag) == v
  {
    if mag == 0.0 then Err(ZeroVectorNormalization) else DivScalar(v, mag)
  }

  /** A successful normalize() returns a vector of length one. */
  lemma NormalizeIsUnit(v: Vec2, mag: real)
    requires IsMagnitude(v, mag) && Normalize(v, mag).Ok?
    ensures Normalize(v, mag).value == Vec2(v.x / mag, v.y / mag)
    ensures (v.x / mag) * (v.x / mag) + (v.y / mag) * (v.y / mag) == 1.0
  {
    UnitAfterDivision(v, mag);
  }

  /** Dividing a vector by its nonzero magnitude leaves a unit vector. */
  lemma UnitAfterDivision(v: Vec2, m: real)
    requires IsMagnitude(v, m) && m != 0.0
    ensures (v.x / m) * (v.x / m) + (v.y / m) * (v.y / m) == 1.0
  {
    var ux, uy := v.x / m, v.y / m;
    assert ux * m == v.x && uy * m == v.y;
    calc {
      (ux * ux + uy * uy) * (m * m);
      (ux * m) * (ux * m) + (uy * m) * (uy * m);
      v.x * v.x + v.y * v.y;
      m * m;
    }
    assert m * m > 0.0;
  }

  /** A unit vector scaled by s >= 0 has magnitude s. */
  lemma UnitScaled(n: Vec2, s: real)
    requires n.x * n.x + n.y * n.y == 1.0 && s >= 0.0
    ensures IsMagnitude(Scale(n, s), s)
  {
    calc {
      (n.x * s) * (n.x * s) + (n.y * s) * (n.y * s);
      (n.x * n.x + n.y * n.y) * (s * s);
      s * s;
    }
  }

  /** operator- undoes operator+ and the other way round. */
  lemma AddSubInverse(a: Vec2, b: Vec2)
    ensures Sub(Add(a, b), b) == a && Add(Sub(a, b), b) == a
  {
  }
}

/**
 * The collision response shared by Solver::resolve_collision
 * (include/Solver.hpp) and the free resolve_collision of
 * include/collision_math.hpp, as a function of the two particles' states.
 * The distance between the centres is the square root the source computes;
 * it is an input here. The two C++ functions differ only in where the sum of
 * the radii and the damping come from, and both are proved against Respond.
 */
module Collision {
  import opened Vectors
  import opened VectorMath
  import opened Particles

  /** const float EPSILON = 1e-6f */
  const Epsilon: real := 0.000001

  /** The pair of particle states a response produces. */
  datatype Pair = Pair(first: ParticleState, second: ParticleState)

  /**
   * The early exit on distance: the centres (almost) coincide, or the
   * bodies do not overlap by more than EPSILON.
   */
  predicate OutOfContact(dist: real, sumOfRadii: real) {
    dist < Epsilon || dist + Epsilon >= sumOfRadii
  }

  /** The unit normal from body2 towards body1, (dX / dist, dY / dist). */
  function Normal(b1: ParticleState, b2: ParticleState, dist: real): Vec2
    requires dist != 0.0
  {
    Quotient(Sub(b1.position, b2.position), dist)
  }

  /** The relative velocity projected on the normal. */
  function ApproachSpeed(b1: ParticleState, b2: ParticleState, dist: real): real
    requires dist != 0.0
  {
    DotProduct(Sub(b1.velocity, b2.velocity), Normal(b1, b2, dist))
  }

  /** massScaler1 = 2 m2 / (m1 + m2) */
  function Scaler1(b1: ParticleState, b2: ParticleState): real
    requires b1.mass + b2.mass != 0.0
  {
    (2.0 * b2.mass) / (b1.mass + b2.mass)
  }

  /** massScaler2 = 2 m1 / (m1 + m2) */
  function Scaler2(b1: ParticleState, b2: ParticleState): real
    requires b1.mass + b2.mass != 0.0
  {
    (2.0 * b1.mass) / (b1.mass + b2.mass)
  }

  /** True when the response changes the bodies: they overlap and approach. */
  predicate Responds(b1: ParticleState, b2: ParticleState, dist: real, sumOfRadii: real) {
    !OutOfContact(dist, sumOfRadii) && !(ApproachSpeed(b1, b2, dist) > 0.0)
  }

  /**
   * One collision response: returns both bodies unchanged when they are out
   * of contact or separating; otherwise exchanges mass-weighted damped
   * impulses along the normal and pushes both bodies apart by half the
   * penetration depth each. Only velocity and position ever change.
   */
  function Respond(b1: ParticleState, b2: ParticleState, dist: real, sumOfRadii: real, damping: real): (r: Pair)
    requires b1.mass + b2.mass != 0.0
    ensures r.first.mass == b1.mass && r.first.radius == b1.radius && r.first.force == b1.force
    ensures r.second.mass == b2.mass && r.second.radius == b2.radius && r.second.force == b2.force
    ensures !Responds(b1, b2, dist, sumOfRadii) ==> r == Pair(b1, b2)
  {
    if OutOfContact(dist, sumOfRadii) then Pair(b1, b2)
    else
      var n := Normal(b1, b2, dist);
      var dot := ApproachSpeed(b1, b2, dist);
      if dot > 0.0 then Pair(b1, b2)
      else
        var impulse1 := Scale(Scale(n, dot), Scaler1(b1, b2));
        var impulse2 := Scale(Scale(n, dot), Scaler2(b1, b2));
        var correction := Scale(n, (sumOfRadii - dist) / 2.0);
        Pair(
          b1.(velocity := Sub(b1.velocity, Scale(impulse1, damping)),
              position := Add(b1.position, correction)),
          b2.(velocity := Add(b2.velocity, Scale(impulse2, damping)),
              position := Sub(b2.position, correction)))
  }

  /** The total momentum m1 v1 + m2 v2 of a pair. */
  function Momentum(b1: ParticleState, b2: ParticleState): Vec2 {
    Add(Scale(b1.velocity, b1.mass), Scale(b2.velocity, b2.mass))
  }

  /** For masses that do not cancel, the two scalers add up to two. */
  lemma ScalersSumToTwo(b1: ParticleState, b2: ParticleState)
    requires b1.mass + b2.mass != 0.0
    ensures Scaler1(b1, b2) + Scaler2(b1, b2) == 2.0
  {
  }

  /** m1 * massScaler1 == m2 * massScaler2, the balance behind momentum conservation. */
  lemma ScalersBalance(b1: ParticleState, b2: ParticleState)
    requires b1.mass + b2.mass != 0.0
    ensures b1.mass * Scaler1(b1, b2) == b2.mass * Scaler2(b1, b2)
  {
  }

  /** One component of the impulse exchange keeps m1 v1 + m2 v2. */
  lemma ExchangeComponent(m1: real, m2: real, v1: real, v2: real, i: real, s1: real, s2: real, d: real)
    requires m1 * s1 == m2 * s2
    ensures (v1 - i * s1 * d) * m1 + (v2 + i * s2 * d) * m2 == v1 * m1 + v2 * m2
  {
    assert (i * s1 * d) * m1 == (m1 * s1) * (i * d);
    assert (i * s2 * d) * m2 == (m2 * s2) * (i * d);
  }

  /** Exchanging impulses weighted by balanced scalers keeps the total momentum. */
  lemma ExchangeKeepsMomentum(b1: ParticleState, b2: ParticleState, nd: Vec2, s1: real, s2: real, damping: real)
    requires b1.mass * s1 == b2.mass * s2
    ensures Momentum(b1.(velocity := Sub(b1.velocity, Scale(Scale(nd, s1), damping))),
                     b2.(velocity := Add(b2.velocity, Scale(Scale(nd, s2), damping)))) ==
            Momentum(b1, b2)
  {
    var u1 := Sub(b1.velocity, Scale(Scale(nd, s1), damping));
    var u2 := Add(b2.velocity, Scale(Scale(nd, s2), damping));
    ExchangeComponent(b1.mass, b2.mass, b1.velocity.x, b2.velocity.x, nd.x, s1, s2, damping);
    ExchangeComponent(b1.mass, b2.mass, b1.velocity.y, b2.velocity.y, nd.y, s1, s2, damping);
    assert u1.x * b1.mass + u2.x * b2.mass == b1.velocity.x * b1.mass + b2.velocity.x * b2.mass;
    assert u1.y * b1.mass + u2.y * b2.mass == b1.velocity.y * b1.mass + b2.velocity.y * b2.mass;
  }

  /** The response conserves momentum, whatever the damping. */
  lemma RespondConservesMomentum(b1: ParticleState, b2: ParticleState, dist: real, sumOfRadii: real, damping: real)
    requires b1.mass + b2.mass != 0.0
    ensures var r := Respond(b1, b2, dist, sumOfRadii, damping);
      Momentum(r.first, r.second) == Momentum(b1, b2)
  {
    if Responds(b1, b2, dist, sumOfRadii) {
      var nd := Scale(Normal(b1, b2, dist), ApproachSpeed(b1, b2, dist));
      var s1, s2 := Scaler1(b1, b2), Scaler2(b1, b2);
      ScalersBalance(b1, b2);
      ExchangeKeepsMomentum(b1.(position := Add(b1.position, Scale(Normal(b1, b2, dist), (sumOfRadii - dist) / 2.0))),
                            b2.(position := Sub(b2.position, Scale(Normal(b1, b2, dist), (sumOfRadii - dist) / 2.0))),
                            nd, s1, s2, damping);
    }
  }

  /** The positional correction is equal and opposite: p1 + p2 is kept. */
  lemma RespondKeepsPositionSum(b1: ParticleState, b2: ParticleState, dist: real, sumOfRadii: real, damping: real)
    requires b1.mass + b2.mass != 0.0
    ensures var r := Respond(b1, b2, dist, sumOfRadii, damping);
      Add(r.first.position, r.second.position) == Add(b1.position, b2.position)
  {
  }

  /**
   * After a response the separation p1 - p2 is the normal scaled by the sum
   * of the radii: the bodies end exactly touching along the normal.
   */
  lemma RespondLeavesTouching(b1: ParticleState, b2: ParticleState, dist: real, sumOfRadii: real, damping: real)
    requires b1.mass + b2.mass != 0.0
    requires Responds(b1, b2, dist, sumOfRadii)
    ensures var r := Respond(b1, b2, dist, sumOfRadii, damping);
      Sub(r.first.position, r.second.position) == Scale(Normal(b1, b2, dist), sumOfRadii)
  {
    var d := Sub(b1.position, b2.position);
    var n := Normal(b1, b2, dist);
    assert Scale(n, dist) == d;
    var h := (sumOfRadii - dist) / 2.0;
    assert n.x * h + n.x * h == n.x * sumOfRadii - n.x * dist;
    assert n.y * h + n.y * h == n.y * sumOfRadii - n.y * dist;
  }

  /**
   * With the true distance as input the normal has length one, so after a
   * response the centres are exactly sumOfRadii apart, and an immediate
   * second response, given that distance, changes nothing.
   */
  lemma RespondThenNoOp(b1: ParticleState, b2: ParticleState, dist: real, sumOfRadii: real, damping: real)
    requires b1.mass + b2.mass != 0.0
    requires IsMagnitude(Sub(b1.position, b2.position), dist)
    requires Responds(b1, b2, dist, sumOfRadii)
    ensures var r := Respond(b1, b2, dist, sumOfRadii, damping);
      IsMagnitude(Sub(r.first.position, r.second.position), sumOfRadii) &&
      Respond(r.first, r.second, sumOfRadii, sumOfRadii, damping) == r
  {
    var r := Respond(b1, b2, dist, sumOfRadii, damping);
    RespondLeavesTouching(b1, b2, dist, sumOfRadii, damping);
    var d := Sub(b1.position, b2.position);
    UnitAfterDivision(d, dist);
    UnitScaled(Normal(b1, b2, dist), sumOfRadii);
    assert OutOfContact(sumOfRadii, sumOfRadii);
  }
}

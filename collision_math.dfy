/**
 * The free resolve_collision of include/collision_math.hpp: the same
 * response as the Solver's, with the sum of the two radii as the contact
 * distance and its own damping constant instead of the configured one.
 */
module CollisionMath {
  import opened Vectors
  import opened VectorMath
  import opened Particles
  import opened Collision

  /** The local COLLISION_DAMPENING, independent of the configuration. */
  const Dampening: real := 0.9

  /**
   * resolve_collision(body1, body2): both bodies end as Respond says with
   * sumOfRadii = r1 + r2 and the local damping.
   */
  method ResolveCollision(body1: Particle, body2: Particle, dist: real)
    requires body1 != body2
    requires body1.mass + body2.mass != 0.0
    modifies body1, body2
    ensures Pair(body1.State(), body2.State()) ==
      Respond(old(body1.State()), old(body2.State()), dist, old(body1.radius + body2.radius), Dampening)
  {
    ghost var s1, s2 := body1.State(), body2.State();
    var dX := body1.position.x - body2.position.x;
    var dY := body1.position.y - body2.position.y;
    if dist < Epsilon {
      return;
    }
    var normalVector := Vec2(dX / dist, dY / dist);
    assert normalVector == Normal(s1, s2, dist);
    var sumOfRadii := body1.radius + body2.radius;
    if dist + Epsilon >= sumOfRadii {
      return;
    }
    var velocityDifference := Sub(body1.velocity, body2.velocity);
    var massScaler := (2.0 * body2.mass) / (body1.mass + body2.mass);
    var dotProductResult := DotProduct(velocityDifference, normalVector);
    assert dotProductResult == ApproachSpeed(s1, s2, dist);
    if dotProductResult > 0.0 {
      return;
    }
    var massScaler1 := (2.0 * body2.mass) / (body1.mass + body2.mass);
    var massScaler2 := (2.0 * body1.mass) / (body1.mass + body2.mass);
    assert massScaler1 == Scaler1(s1, s2) && massScaler2 == Scaler2(s1, s2);
    var i1 := Scale(Scale(normalVector, dotProductResult), massScaler1);
    var i2 := Scale(Scale(normalVector, dotProductResult), massScaler2);
    var impulse1 := new Vector2f(i1.x, i1.y);
    var impulse2 := new Vector2f(i2.x, i2.y);
    var damped1 := ScaleVec(impulse1, Dampening);
    var damped2 := ScaleVec(impulse2, Dampening);
    body1.velocity := Sub(body1.velocity, damped1.Value());
    body2.velocity := Add(body2.velocity, damped2.Value());
    var penetrationDepth := sumOfRadii - dist;
    var correctionVector := Scale(normalVector, penetrationDepth / 2.0);
    body1.position := Add(body1.position, correctionVector);
    body2.position := Sub(body2.position, correctionVector);
  }
}

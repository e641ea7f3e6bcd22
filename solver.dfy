/**
 * The Solver of include/Solver.hpp: the in-place collision response and the
 * brute-force O(n*n) gravity pass. The pairwise gravitational force is a
 * parameter of the gravity pass (its numerics are not modelled), and the
 * distance between two centres is the square root the source computes,
 * passed in as an argument that must be the true magnitude.
 */
module Solver {
  import opened Vectors
  import opened VectorMath
  import opened Particles
  import opened Collision
  import Config

  /** The default sumOfRadii argument, config.particleSize * 2. */
  const DefaultSumOfRadii: real := (Config.ParticleSize * 2) as real

  /**
   * resolve_collision(body1, body2, sumOfRadii) with the damping of
   * config.COLLISION_DAMPENING: both bodies end as Respond says.
   */
  method ResolveCollision(body1: Particle, body2: Particle, sumOfRadii: real, dist: real)
    requires body1 != body2
    requires body1.mass + body2.mass != 0.0
    modifies body1, body2
    ensures Pair(body1.State(), body2.State()) ==
      Respond(old(body1.State()), old(body2.State()), dist, sumOfRadii, Config.CollisionDampening)
  {
    ghost var s1, s2 := body1.State(), body2.State();
    var dX := body1.position.x - body2.position.x;
    var dY := body1.position.y - body2.position.y;
    if dist < Epsilon || dist + Epsilon >= sumOfRadii {
      return;
    }
    var normalVector := Vec2(dX / dist, dY / dist);
    assert normalVector == Normal(s1, s2, dist);
    var velocityDifference := Sub(body1.velocity, body2.velocity);
    var dotProductResult := DotProduct(velocityDifference, normalVector);
    assert dotProductResult == ApproachSpeed(s1, s2, dist);
    if dotProductResult > 0.0 {
      return;
    }
    var massScaler1 := (2.0 * body2.mass) / (body1.mass + body2.mass);
    var massScaler2 := (2.0 * body1.mass) / (body1.mass + body2.mass);
    assert massScaler1 == Scaler1(s1, s2) && massScaler2 == Scaler2(s1, s2);
    var i1 := Scale(Scale(normalVector, dotProductResult), massScaler1);
    var i2 := Scale(Scale(normalVector, dotProductResult), massScaler2);
    var impulse1 := new Vector2f(i1.x, i1.y);
    var impulse2 := new Vector2f(i2.x, i2.y);
    var damped1 := ScaleVec(impulse1, Config.CollisionDampening);
    var damped2 := ScaleVec(impulse2, Config.CollisionDampening);
    body1.velocity := Sub(body1.velocity, damped1.Value());
    body2.velocity := Add(body2.velocity, damped2.Value());
    var penetrationDepth := sumOfRadii - dist;
    var correctionVector := Scale(normalVector, penetrationDepth / 2.0);
    body1.position := Add(body1.position, correctionVector);
    body2.position := Sub(body2.position, correctionVector);
  }

  /** The force on body i: the pair force from every other body, summed in index order. */
  function NetForce(s: seq<ParticleState>, i: nat, pairForce: (real, Vec2, real, Vec2) -> Vec2): Vec2
    requires i < |s|
  {
    PartialForce(s, i, |s|, pairForce)
  }

  /** The pair forces on body i from the bodies with index below j, other than i itself. */
  function PartialForce(s: seq<ParticleState>, i: nat, j: nat, pairForce: (real, Vec2, real, Vec2) -> Vec2): Vec2
    requires i < |s| && j <= |s|
  {
    if j == 0 then Zero
    else if j - 1 == i then PartialForce(s, i, j - 1, pairForce)
    else Add(PartialForce(s, i, j - 1, pairForce),
             pairForce(s[i].mass, s[i].position, s[j - 1].mass, s[j - 1].position))
  }

  /**
   * _calculateGravity: does nothing when G is zero; otherwise resets each
   * particle's force and accumulates the pair force from every other
   * particle. Positions, velocities, masses and radii are not touched.
   */
  method CalculateGravity(particles: seq<Particle>, gravitationalConstant: real,
                          pairForce: (real, Vec2, real, Vec2) -> Vec2)
    requires forall a, b :: 0 <= a < b < |particles| ==> particles[a] != particles[b]
    modifies set p | p in particles
    ensures gravitationalConstant == 0.0 ==> StatesOf(particles) == old(StatesOf(particles))
    ensures gravitationalConstant != 0.0 ==> forall k :: 0 <= k < |particles| ==>
      particles[k].State() == old(particles[k].State()).(force := NetForce(old(StatesOf(particles)), k, pairForce))
  {
    if gravitationalConstant == 0.0 {
      return;
    }
    ghost var before := StatesOf(particles);
    var n := |particles|;
    for i := 0 to n
      invariant forall k :: 0 <= k < n ==> particles[k].State().(force := before[k].force) == before[k]
      invariant forall k :: 0 <= k < i ==> particles[k].force == NetForce(before, k, pairForce)
      invariant forall k :: i <= k < n ==> particles[k].force == before[k].force
    {
      var particle1 := particles[i];
      particle1.force := Zero;
      for j := 0 to n
        modifies particle1
        invariant particle1.State().(force := before[i].force) == before[i]
        invariant particle1.force == PartialForce(before, i, j, pairForce)
      {
        if i == j {
          continue;
        }
        var particle2 := particles[j];
        particle1.force := Add(particle1.force,
          pairForce(particle1.mass, particle1.position, particle2.mass, particle2.position));
      }
    }
  }

  /** A body alone feels no force: the pass never pairs a body with itself. */
  lemma {:induction false} NoSelfForce(s: seq<ParticleState>, i: nat, j: nat, pairForce: (real, Vec2, real, Vec2) -> Vec2)
    requires i < |s| && j <= |s|
    requires forall k :: 0 <= k < j && k != i ==> pairForce(s[i].mass, s[i].position, s[k].mass, s[k].position) == Zero
    ensures PartialForce(s, i, j, pairForce) == Zero
  {
    if j > 0 {
      NoSelfForce(s, i, j - 1, pairForce);
    }
  }
}

/**
 * The Particle record of include/Particle.hpp. A particle lives in the
 * static particle vector and is updated in place by the integrator and by
 * collision response, so it is a class here; its value at one moment is a
 * ParticleState, which is what copies (the gravity grid's cells) hold.
 *
 * The constructor's radius parameter shadows the float member radius, so
 * that member is never set; the radius the program reads is the SFML
 * shape's (shape.getRadius()), which the constructor does set. The radius
 * field here stands for the shape's radius. The shape's position and
 * colour are for drawing only and are not modelled.
 */
module Particles {
  import opened Vectors

  /** The float literal the constructor uses for pi. */
  const PiApprox: real := 3.14159

  /** mass = 3.14159 * radius * radius */
  function MassOfRadius(radius: real): real {
    PiApprox * radius * radius
  }

  /** A particle's fields at one moment, as a value. */
  datatype ParticleState = ParticleState(
    position: Vec2,
    velocity: Vec2,
    force: Vec2,
    radius: real,
    mass: real)

  class Particle {
    var position: Vec2
    var velocity: Vec2
    var force: Vec2
    var radius: real
    var mass: real

    /**
     * Particle(position, radius, velocity): stores position, radius and
     * velocity, starts with zero force and derives the mass from the radius.
     */
    constructor(position0: Vec2, radius0: real, velocity0: Vec2)
      ensures position == position0 && velocity == velocity0 && radius == radius0
      ensures force == Zero
      ensures mass == MassOfRadius(radius0)
    {
      position := position0;
      velocity := velocity0;
      force := Zero;
      radius := radius0;
      mass := MassOfRadius(radius0);
    }

    /** The particle's current fields as a value. */
    function State(): ParticleState
      reads this
    {
      ParticleState(position, velocity, force, radius, mass)
    }

    /**
     * update(): velocity += force / mass, then position += the new
     * velocity. There is no time step, the force is kept and the mass and
     * radius do not change.
     */
    method Update()
      requires mass != 0.0
      modifies this
      ensures velocity == Add(old(velocity), Quotient(old(force), old(mass)))
      ensures position == Add(old(position), velocity)
      ensures force == old(force) && mass == old(mass) && radius == old(radius)
      ensures State() == Stepped(old(State()))
    {
      var acceleration := Quotient(force, mass);
      velocity := Add(velocity, acceleration);
      position := Add(position, velocity);
    }
  }

  /** The states of a sequence of particles, in order. */
  function StatesOf(ps: seq<Particle>): (r: seq<ParticleState>)
    reads set p | p in ps
    ensures |r| == |ps|
    ensures forall k :: 0 <= k < |ps| ==> r[k] == ps[k].State()
  {
    if ps == [] then [] else StatesOf(ps[..|ps| - 1]) + [ps[|ps| - 1].State()]
  }

  /** The state update() produces, as a function of the state before it. */
  function Stepped(s: ParticleState): (r: ParticleState)
    requires s.mass != 0.0
    ensures Scale(Sub(r.velocity, s.velocity), s.mass) == s.force
    ensures Sub(r.position, s.position) == r.velocity
    ensures r.force == s.force && r.mass == s.mass && r.radius == s.radius
  {
    var v := Add(s.velocity, Quotient(s.force, s.mass));
    s.(velocity := v, position := Add(s.position, v))
  }

  /**
   * The static particle vector. add() inserts copies of the given
   * particles at its end. The vector holds the particles by value, so an
   * insertion that reallocates moves them; here they are references that
   * keep their identity (see the README).
   */
  class ParticleStore {
    var particles: seq<Particle>

    constructor()
      ensures particles == []
    {
      particles := [];
    }

    /**
     * add(particlesToAdd): appends a copy of each given particle, in order;
     * the particles already stored keep their values.
     */
    method Add(toAdd: seq<Particle>)
      modifies this
      ensures |particles| == |old(particles)| + |toAdd|
      ensures particles[..|old(particles)|] == old(particles)
      ensures forall j :: |old(particles)| <= j < |particles| ==>
        fresh(particles[j]) && particles[j].State() == toAdd[j - |old(particles)|].State()
    {
      var n := |particles|;
      var i := 0;
      while i < |toAdd|
        invariant 0 <= i <= |toAdd|
        invariant |particles| == n + i
        invariant particles[..n] == old(particles)
        invariant forall j :: n <= j < |particles| ==>
          fresh(particles[j]) && particles[j].State() == toAdd[j - n].State()
      {
        var src := toAdd[i];
        var copy := new Particle(src.position, src.radius, src.velocity);
        copy.force := src.force;
        copy.mass := src.mass;
        particles := particles + [copy];
        i := i + 1;
      }
    }
  }
}

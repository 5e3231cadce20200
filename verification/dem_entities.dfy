/**
 The entities of the discrete-particle solver: spherical particles, flat
 walls, and the solver's global parameters.  The end time is replaced by a
 step count (see `DemSolver.Solve`).
 */
module DemEntities {
  import opened Vec3s

  /** Radius `a`, mass `m`, position `r`, velocity `v` and force accumulator `f`. */
  datatype Particle = Particle(a: real, m: real, r: Vec3, v: Vec3, f: Vec3)

  /** What a contact law may look at: radius, position and velocity. */
  datatype Body = Body(a: real, r: Vec3, v: Vec3)

  function BodyOf(p: Particle): Body {
    Body(p.a, p.r, p.v)
  }

  /** A flat wall: normal `n` pointing into the wall and a point `P0` on it. */
  datatype Wall = Wall(n: Vec3, P0: Vec3)

  /**
   Time step, stiffness, dissipation coefficient, number of steps between
   saves (an unsigned counter in the solver) and the gravity vector.
   */
  datatype Params = Params(dt: real, k: real, gam: real, saveCount: nat, gravity: Vec3)

  /** The particle with `d` added to its force accumulator (`p.f += d`). */
  function AddForce(p: Particle, d: Vec3): Particle {
    p.(f := Add(p.f, d))
  }

  /** The integrator divides by every mass. */
  predicate MassesNonZero(ps: seq<Particle>) {
    forall i :: 0 <= i < |ps| ==> ps[i].m != 0.0
  }

  /** `qs` is `ps` with, at most, different force accumulators. */
  predicate SameBodies(ps: seq<Particle>, qs: seq<Particle>) {
    |qs| == |ps| && forall i :: 0 <= i < |ps| ==> qs[i] == ps[i].(f := qs[i].f)
  }
}

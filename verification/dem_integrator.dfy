/**
 The Euler integrator of the particle solver.  Each particle first moves
 with its pre-step velocity, then its velocity is updated from its force.
 */
module DemIntegrator {
  import opened Vec3s
  import opened DemEntities
  import opened DemForces

  /** The state of one particle after the update, in terms of its pre-step state. */
  function Advanced(p: Particle, dt: real): Particle
    requires p.m != 0.0
  {
    p.(r := Add(p.r, Scale(p.v, dt)), v := Add(p.v, Scale(p.f, dt / p.m)))
  }

  /** Total momentum: the sum of `v * m` over all particles. */
  function Momentum(ps: seq<Particle>): Vec3 {
    if |ps| == 0 then Zero else Add(Momentum(ps[..|ps| - 1]), Scale(ps[|ps| - 1].v, ps[|ps| - 1].m))
  }

  /**
   The integration loop: `r += v*dt` with the velocity before the step, then
   `v += f*(dt/m)`; radius, mass and force are kept.  The momentum grows by
   the total force times `dt`.
   */
  method Integrate(ps: seq<Particle>, dt: real) returns (qs: seq<Particle>)
    requires MassesNonZero(ps)
    ensures |qs| == |ps|
    ensures forall i :: 0 <= i < |ps| ==> qs[i] == Advanced(ps[i], dt)
    ensures Momentum(qs) == Add(Momentum(ps), Scale(TotalForce(ps), dt))
  {
    qs := ps;
    var i := 0;
    while i < |qs|
      invariant 0 <= i <= |qs| == |ps|
      invariant forall k :: 0 <= k < i ==> qs[k] == Advanced(ps[k], dt)
      invariant forall k :: i <= k < |ps| ==> qs[k] == ps[k]
    {
      var p := qs[i];
      p := p.(r := Add(p.r, Scale(p.v, dt)));
      p := p.(v := Add(p.v, Scale(p.f, dt / p.m)));
      qs := qs[i := p];
      i := i + 1;
    }
    MomentumAfterUpdate(ps, qs, dt);
  }

  /** `(v + f * q) * m == v * m + f * dt` when `q * m == dt`, componentwise. */
  lemma VelocityTimesMass(v: Vec3, f: Vec3, q: real, dt: real, m: real)
    requires q * m == dt
    ensures Scale(Add(v, Scale(f, q)), m) == Add(Scale(v, m), Scale(f, dt))
  {
    ComponentTimesMass(v.x, f.x, q, dt, m);
    ComponentTimesMass(v.y, f.y, q, dt, m);
    ComponentTimesMass(v.z, f.z, q, dt, m);
  }

  lemma ComponentTimesMass(v: real, f: real, q: real, dt: real, m: real)
    requires q * m == dt
    ensures (v + f * q) * m == v * m + f * dt
  {
    assert f * q * m == f * (q * m);
  }

  lemma QuotientTimesDivisor(dt: real, m: real)
    requires m != 0.0
    ensures dt / m * m == dt
  {
  }

  lemma {:induction false} MomentumAfterUpdate(ps: seq<Particle>, qs: seq<Particle>, dt: real)
    requires MassesNonZero(ps) && |qs| == |ps|
    requires forall k :: 0 <= k < |ps| ==> qs[k] == Advanced(ps[k], dt)
    ensures Momentum(qs) == Add(Momentum(ps), Scale(TotalForce(ps), dt))
    decreases |ps|
  {
    if |ps| > 0 {
      var n := |ps| - 1;
      MomentumAfterUpdate(ps[..n], qs[..n], dt);
      var p := ps[n];
      AdvancedMomentum(p, dt);
      ScaleDistributes(TotalForce(ps[..n]), p.f, dt);
      Regroup(Momentum(ps[..n]), Scale(TotalForce(ps[..n]), dt), Scale(p.v, p.m), Scale(p.f, dt));
    }
  }

  /** One particle's momentum grows by its force times `dt`. */
  lemma AdvancedMomentum(p: Particle, dt: real)
    requires p.m != 0.0
    ensures Scale(Advanced(p, dt).v, p.m) == Add(Scale(p.v, p.m), Scale(p.f, dt))
  {
    QuotientTimesDivisor(dt, p.m);
    VelocityTimesMass(p.v, p.f, dt / p.m, dt, p.m);
  }

  lemma Regroup(a: Vec3, b: Vec3, c: Vec3, d: Vec3)
    ensures Add(Add(a, b), Add(c, d)) == Add(Add(a, c), Add(b, d))
  {
  }

  lemma ScaleDistributes(a: Vec3, b: Vec3, s: real)
    ensures Scale(Add(a, b), s) == Add(Scale(a, s), Scale(b, s))
  {
    assert (a.x + b.x) * s == a.x * s + b.x * s;
    assert (a.y + b.y) * s == a.y * s + b.y * s;
    assert (a.z + b.z) * s == a.z * s + b.z * s;
  }

  /** Momentum depends only on velocities and masses. */
  lemma {:induction false} MomentumIgnoresForce(ps: seq<Particle>, qs: seq<Particle>)
    requires SameBodies(ps, qs)
    ensures Momentum(qs) == Momentum(ps)
    decreases |ps|
  {
    if |ps| > 0 {
      MomentumIgnoresForce(ps[..|ps| - 1], qs[..|qs| - 1]);
    }
  }
}

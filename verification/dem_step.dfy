/**
 One time step of the particle solver: reset forces to gravity, add wall
 contacts, add particle contacts, integrate.
 */
module DemStep {
  import opened Vec3s
  import opened DemEntities
  import opened DemForces
  import opened DemContacts
  import opened DemIntegrator

  /** The force on particle `i` for the current positions and velocities: gravity, walls, contacts. */
  function NetForce(ps: seq<Particle>, walls: seq<Wall>, prm: Params, sqrt: real -> real, i: nat): Vec3
    requires i < |ps|
  {
    Add(Add(Scale(prm.gravity, ps[i].m), WallForce(ps[i], walls, prm.k, prm.gam)),
        ContactForce(ps, i, PairLaw(prm.k, prm.gam, sqrt)))
  }

  /** Particle `i` after one step from `ps`. */
  function Stepped(ps: seq<Particle>, walls: seq<Wall>, prm: Params, sqrt: real -> real, i: nat): Particle
    requires i < |ps| && ps[i].m != 0.0
  {
    Advanced(ps[i].(f := NetForce(ps, walls, prm, sqrt, i)), prm.dt)
  }

  /** The whole state after one step from `ps`. */
  function StepState(ps: seq<Particle>, walls: seq<Wall>, prm: Params, sqrt: real -> real): seq<Particle>
    requires MassesNonZero(ps)
  {
    seq(|ps|, i requires 0 <= i < |ps| => Stepped(ps, walls, prm, sqrt, i))
  }

  /**
   One step.  Each particle's force is exactly gravity plus walls plus
   contacts for the pre-step state (nothing carries over from earlier steps),
   its position advances with the pre-step velocity, its velocity with that
   force; radius and mass are kept.  Because contacts are equal and opposite,
   the momentum changes only by the gravity and wall forces times `dt`.
   */
  method Step(ps: seq<Particle>, walls: seq<Wall>, prm: Params, sqrt: real -> real) returns (qs: seq<Particle>)
    requires MassesNonZero(ps) && WellSeparated(ps, sqrt)
    ensures qs == StepState(ps, walls, prm, sqrt)
    ensures |qs| == |ps|
    ensures forall i :: 0 <= i < |ps| ==> qs[i].a == ps[i].a && qs[i].m == ps[i].m
    ensures forall i :: 0 <= i < |ps| ==> qs[i].f == NetForce(ps, walls, prm, sqrt, i)
    ensures forall i :: 0 <= i < |ps| ==> qs[i].r == Add(ps[i].r, Scale(ps[i].v, prm.dt))
    ensures forall i :: 0 <= i < |ps| ==>
              qs[i].v == Add(ps[i].v, Scale(NetForce(ps, walls, prm, sqrt, i), prm.dt / ps[i].m))
    ensures Momentum(qs) == Add(Momentum(ps),
                                Scale(Add(GravityTotal(ps, prm.gravity), WallTotal(ps, walls, prm.k, prm.gam)), prm.dt))
  {
    var law := PairLaw(prm.k, prm.gam, sqrt);
    var reset := ResetForces(ps, prm.gravity);
    var walled := AddWallForces(reset, walls, prm.k, prm.gam);
    var contacted := AddPairForces(walled, law);
    PhasesGiveNetForce(ps, reset, walled, contacted, walls, prm, sqrt);
    WallTotalIgnoresForce(ps, reset, walls, prm.k, prm.gam);
    MomentumIgnoresForce(ps, contacted);
    qs := Integrate(contacted, prm.dt);
    StepIsStepState(ps, walls, prm, sqrt, contacted, qs);
  }

  /** Integrating the net forces of the pre-step state gives the stepped state, particle by particle. */
  lemma StepIsStepState(ps: seq<Particle>, walls: seq<Wall>, prm: Params, sqrt: real -> real,
                        contacted: seq<Particle>, qs: seq<Particle>)
    requires MassesNonZero(ps) && |contacted| == |ps| && |qs| == |ps|
    requires forall i :: 0 <= i < |ps| ==> contacted[i] == ps[i].(f := NetForce(ps, walls, prm, sqrt, i))
    requires forall i :: 0 <= i < |ps| ==> qs[i] == Advanced(contacted[i], prm.dt)
    ensures qs == StepState(ps, walls, prm, sqrt)
    ensures forall i :: 0 <= i < |ps| ==> qs[i].a == ps[i].a && qs[i].m == ps[i].m
    ensures forall i :: 0 <= i < |ps| ==> qs[i].f == NetForce(ps, walls, prm, sqrt, i)
    ensures forall i :: 0 <= i < |ps| ==> qs[i].r == Add(ps[i].r, Scale(ps[i].v, prm.dt))
    ensures forall i :: 0 <= i < |ps| ==>
              qs[i].v == Add(ps[i].v, Scale(NetForce(ps, walls, prm, sqrt, i), prm.dt / ps[i].m))
  {
    forall i | 0 <= i < |ps|
      ensures qs[i] == Stepped(ps, walls, prm, sqrt, i)
    {
      assert contacted[i].m == ps[i].m;
    }
    assert qs == StepState(ps, walls, prm, sqrt);
  }

  /** After the three force phases every accumulator holds the net force of the pre-step state. */
  lemma PhasesGiveNetForce(ps: seq<Particle>, reset: seq<Particle>, walled: seq<Particle>, contacted: seq<Particle>,
                           walls: seq<Wall>, prm: Params, sqrt: real -> real)
    requires SameBodies(ps, reset) && SameBodies(reset, walled) && SameBodies(walled, contacted)
    requires forall i :: 0 <= i < |ps| ==> reset[i].f == Scale(prm.gravity, ps[i].m)
    requires forall i :: 0 <= i < |ps| ==> walled[i].f == Add(reset[i].f, WallForce(reset[i], walls, prm.k, prm.gam))
    requires forall i :: 0 <= i < |ps| ==>
               contacted[i].f == Add(walled[i].f, ContactForce(walled, i, PairLaw(prm.k, prm.gam, sqrt)))
    ensures forall i :: 0 <= i < |ps| ==> contacted[i] == ps[i].(f := NetForce(ps, walls, prm, sqrt, i))
  {
    var law := PairLaw(prm.k, prm.gam, sqrt);
    ContactForceBodiesOnly(ps, walled, law);
    forall i | 0 <= i < |ps|
      ensures contacted[i] == ps[i].(f := NetForce(ps, walls, prm, sqrt, i))
    {
      WallForceIgnoresForce(ps[i], reset[i], walls, prm.k, prm.gam);
    }
  }

  /** The contact force depends only on the bodies (radii, positions, velocities). */
  lemma ContactForceBodiesOnly(ps: seq<Particle>, qs: seq<Particle>, law: (Body, Body) -> Vec3)
    requires SameBodies(ps, qs)
    ensures forall i :: 0 <= i < |ps| ==> ContactForce(qs, i, law) == ContactForce(ps, i, law)
  {
    forall i | 0 <= i < |ps|
      ensures ContactForce(qs, i, law) == ContactForce(ps, i, law)
    {
      FromPartnersBodiesOnly(ps, qs, i, i + 1, |ps|, law);
      ToPartnersBodiesOnly(ps, qs, i, i, law);
    }
  }

  lemma {:induction false} FromPartnersBodiesOnly(ps: seq<Particle>, qs: seq<Particle>, i: nat, lo: nat, hi: nat, law: (Body, Body) -> Vec3)
    requires SameBodies(ps, qs) && i < |ps| && lo <= hi <= |ps|
    ensures FromPartners(qs, i, lo, hi, law) == FromPartners(ps, i, lo, hi, law)
    decreases hi - lo
  {
    if lo < hi {
      FromPartnersBodiesOnly(ps, qs, i, lo, hi - 1, law);
      assert BodyOf(qs[i]) == BodyOf(ps[i]) && BodyOf(qs[hi - 1]) == BodyOf(ps[hi - 1]);
    }
  }

  lemma {:induction false} ToPartnersBodiesOnly(ps: seq<Particle>, qs: seq<Particle>, i: nat, hi: nat, law: (Body, Body) -> Vec3)
    requires SameBodies(ps, qs) && i < |ps| && hi <= |ps|
    ensures ToPartners(qs, i, hi, law) == ToPartners(ps, i, hi, law)
  {
    if hi > 0 {
      ToPartnersBodiesOnly(ps, qs, i, hi - 1, law);
      assert BodyOf(qs[i]) == BodyOf(ps[i]) && BodyOf(qs[hi - 1]) == BodyOf(ps[hi - 1]);
    }
  }

  lemma {:induction false} WallTotalIgnoresForce(ps: seq<Particle>, qs: seq<Particle>, walls: seq<Wall>, k: real, gam: real)
    requires SameBodies(ps, qs)
    ensures WallTotal(qs, walls, k, gam) == WallTotal(ps, walls, k, gam)
    decreases |ps|
  {
    if |ps| > 0 {
      var n := |ps| - 1;
      WallTotalIgnoresForce(ps[..n], qs[..n], walls, k, gam);
      WallForceIgnoresForce(ps[n], qs[n], walls, k, gam);
    }
  }

  lemma ScaleByMassOverMass(g: real, m: real, dt: real)
    requires m != 0.0
    ensures g * m * (dt / m) == g * dt
  {
    assert m * (dt / m) == dt;
    assert g * m * (dt / m) == g * (m * (dt / m));
  }

  /**
   A lone particle with no walls feels only gravity: after one step its
   velocity is `v + gravity*dt` and its position `r + v*dt`.
   */
  lemma FreeFall(ps: seq<Particle>, prm: Params, sqrt: real -> real)
    requires |ps| == 1 && ps[0].m != 0.0
    ensures NetForce(ps, [], prm, sqrt, 0) == Scale(prm.gravity, ps[0].m)
    ensures Add(ps[0].v, Scale(NetForce(ps, [], prm, sqrt, 0), prm.dt / ps[0].m))
            == Add(ps[0].v, Scale(prm.gravity, prm.dt))
  {
    var g, m := prm.gravity, ps[0].m;
    assert ContactForce(ps, 0, PairLaw(prm.k, prm.gam, sqrt)) == Zero;
    ScaleByMassOverMass(g.x, m, prm.dt);
    ScaleByMassOverMass(g.y, m, prm.dt);
    ScaleByMassOverMass(g.z, m, prm.dt);
  }
}

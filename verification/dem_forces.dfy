/**
 Force computation of one time step of the particle solver: every force is
 reset to the body force `gravity * m`, then particle-wall contacts and
 particle-particle contacts are added with a linear spring-dashpot law.
 */
module DemForces {
  import opened Vec3s
  import opened DemEntities

  /** Sum of the force accumulators over all particles. */
  function TotalForce(ps: seq<Particle>): Vec3 {
    if |ps| == 0 then Zero else Add(TotalForce(ps[..|ps| - 1]), ps[|ps| - 1].f)
  }

  /** Sum of the body forces `gravity * m` over all particles. */
  function GravityTotal(ps: seq<Particle>, gravity: Vec3): Vec3 {
    if |ps| == 0 then Zero else Add(GravityTotal(ps[..|ps| - 1], gravity), Scale(gravity, ps[|ps| - 1].m))
  }

  /** Adding `d` to one accumulator adds `d` to the total. */
  lemma {:induction false} TotalForceUpdate(ps: seq<Particle>, i: nat, d: Vec3)
    requires i < |ps|
    ensures TotalForce(ps[i := ps[i].(f := Add(ps[i].f, d))]) == Add(TotalForce(ps), d)
    decreases |ps|
  {
    var qs := ps[i := ps[i].(f := Add(ps[i].f, d))];
    var n := |ps| - 1;
    if i == n {
      assert qs[..n] == ps[..n];
    } else {
      assert qs[..n] == ps[..n][i := ps[i].(f := Add(ps[i].f, d))];
      TotalForceUpdate(ps[..n], i, d);
    }
  }

  // ---------------------------------------------------------------- body force

  /** The first loop of a step: every force becomes exactly `gravity * m`. */
  method ResetForces(ps: seq<Particle>, gravity: Vec3) returns (qs: seq<Particle>)
    ensures SameBodies(ps, qs)
    ensures forall i :: 0 <= i < |ps| ==> qs[i].f == Scale(gravity, ps[i].m)
    ensures TotalForce(qs) == GravityTotal(ps, gravity)
  {
    qs := ps;
    var i := 0;
    while i < |qs|
      invariant 0 <= i <= |qs| == |ps|
      invariant forall k :: 0 <= k < i ==> qs[k] == ps[k].(f := Scale(gravity, ps[k].m))
      invariant forall k :: i <= k < |ps| ==> qs[k] == ps[k]
    {
      qs := qs[i := qs[i].(f := Scale(gravity, qs[i].m))];
      i := i + 1;
    }
    ResetTotal(ps, qs, gravity);
  }

  lemma {:induction false} ResetTotal(ps: seq<Particle>, qs: seq<Particle>, gravity: Vec3)
    requires |qs| == |ps|
    requires forall k :: 0 <= k < |ps| ==> qs[k].f == Scale(gravity, ps[k].m)
    ensures TotalForce(qs) == GravityTotal(ps, gravity)
    decreases |ps|
  {
    if |ps| > 0 {
      ResetTotal(ps[..|ps| - 1], qs[..|qs| - 1], gravity);
    }
  }

  // ---------------------------------------------------------------- walls

  /** How far the particle reaches past the wall plane (contact when `>= 0`). */
  function WallOverlap(p: Particle, w: Wall): real {
    p.a - Dot(Sub(w.P0, p.r), w.n)
  }

  /** The force one wall exerts on one particle. */
  function WallContact(p: Particle, w: Wall, k: real, gam: real): Vec3 {
    var overlap := WallOverlap(p, w);
    if overlap >= 0.0 then
      var vreln := Dot(p.v, w.n);
      var normalForce := k * overlap + gam * vreln;
      Scale(w.n, -normalForce)
    else Zero
  }

  /** The force of all walls on one particle, accumulated in wall order. */
  function WallForce(p: Particle, walls: seq<Wall>, k: real, gam: real): Vec3 {
    if |walls| == 0 then Zero
    else Add(WallForce(p, walls[..|walls| - 1], k, gam), WallContact(p, walls[|walls| - 1], k, gam))
  }

  /** Sum of the wall forces over all particles. */
  function WallTotal(ps: seq<Particle>, walls: seq<Wall>, k: real, gam: real): Vec3 {
    if |ps| == 0 then Zero
    else Add(WallTotal(ps[..|ps| - 1], walls, k, gam), WallForce(ps[|ps| - 1], walls, k, gam))
  }

  /** A wall the particle does not reach contributes nothing. */
  lemma WallContactNeedsOverlap(p: Particle, w: Wall, k: real, gam: real)
    ensures WallOverlap(p, w) < 0.0 ==> WallContact(p, w, k, gam) == Zero
    ensures WallOverlap(p, w) >= 0.0 ==>
      WallContact(p, w, k, gam) == Neg(Scale(w.n, k * WallOverlap(p, w) + gam * Dot(p.v, w.n)))
  {
  }

  /**
   With a unit normal, the wall force pushes out of the wall (against `n`)
   with a strength that grows strictly with the overlap when the stiffness is
   positive, for the same velocity.
   */
  lemma WallContactMonotone(p: Particle, q: Particle, w: Wall, k: real, gam: real)
    requires Dot(w.n, w.n) == 1.0 && k > 0.0 && p.v == q.v
    requires 0.0 <= WallOverlap(p, w) < WallOverlap(q, w)
    ensures Dot(WallContact(q, w, k, gam), w.n) < Dot(WallContact(p, w, k, gam), w.n)
  {
    var vn := Dot(p.v, w.n);
    assert Dot(q.v, w.n) == vn;
    var sp := WallContactAlong(p, w, k, gam);
    var sq := WallContactAlong(q, w, k, gam);
    StrongerSpring(k, WallOverlap(p, w), WallOverlap(q, w), gam * vn, sp, sq);
  }

  /** The component of a reached wall's force along a unit normal: minus the spring-dashpot strength. */
  lemma WallContactAlong(p: Particle, w: Wall, k: real, gam: real) returns (s: real)
    requires Dot(w.n, w.n) == 1.0 && WallOverlap(p, w) >= 0.0
    ensures s == -(k * WallOverlap(p, w) + gam * Dot(p.v, w.n))
    ensures Dot(WallContact(p, w, k, gam), w.n) == s * 1.0
  {
    s := -(k * WallOverlap(p, w) + gam * Dot(p.v, w.n));
    assert WallContact(p, w, k, gam) == Scale(w.n, s);
    DotScale(w.n, s);
  }

  lemma StrongerSpring(k: real, op: real, oq: real, damping: real, sp: real, sq: real)
    requires k > 0.0 && op < oq
    requires sp == -(k * op + damping) && sq == -(k * oq + damping)
    ensures sq * 1.0 < sp * 1.0
  {
    PositiveProduct(k, oq - op);
    assert k * oq - k * op == k * (oq - op);
  }

  lemma PositiveProduct(a: real, b: real)
    requires a > 0.0 && b > 0.0
    ensures a * b > 0.0
  {
  }

  /** A particle just touching a wall (`overlap == 0`) at rest relative to it feels no force. */
  lemma WallContactAtTouching(p: Particle, w: Wall, k: real, gam: real)
    requires WallOverlap(p, w) == 0.0 && Dot(p.v, w.n) == 0.0
    ensures WallContact(p, w, k, gam) == Zero
  {
  }

  lemma DotScale(n: Vec3, s: real)
    requires Dot(n, n) == 1.0
    ensures Dot(Scale(n, s), n) == s * 1.0
  {
  }

  /** The particle with the force of all walls added to its accumulator. */
  function WithWalls(p: Particle, walls: seq<Wall>, k: real, gam: real): Particle {
    AddForce(p, WallForce(p, walls, k, gam))
  }

  /** One particle-wall pair of the inner wall loop: the contact force is added when the particle reaches the wall. */
  method ApplyWall(q: Particle, w: Wall, k: real, gam: real) returns (q': Particle)
    ensures q' == AddForce(q, WallContact(q, w, k, gam))
  {
    q' := q;
    var distance := Dot(Sub(w.P0, q.r), w.n);
    var overlap := q.a - distance;
    if overlap >= 0.0 {
      var vreln := Dot(q.v, w.n);
      var normalForce := k * overlap + gam * vreln;
      q' := q'.(f := Add(q'.f, Scale(w.n, -normalForce)));
    } else {
      AddZeroForce(q);
    }
  }

  lemma AddZeroForce(q: Particle)
    ensures AddForce(q, Zero) == q
  {
  }

  /** The inner wall loop for one particle: it gains the force of every wall it reaches. */
  method AddWallsToParticle(p: Particle, walls: seq<Wall>, k: real, gam: real) returns (q: Particle)
    ensures q == WithWalls(p, walls, k, gam)
  {
    q := p;
    var j := 0;
    while j < |walls|
      invariant 0 <= j <= |walls|
      invariant q == AddForce(p, WallForce(p, walls[..j], k, gam))
    {
      ghost var before := q;
      q := ApplyWall(q, walls[j], k, gam);
      WallExtends(p, before, q, walls, j, k, gam);
      j := j + 1;
    }
    assert walls[..|walls|] == walls;
  }

  lemma WallExtends(p: Particle, before: Particle, q: Particle, walls: seq<Wall>, j: nat, k: real, gam: real)
    requires j < |walls|
    requires before == AddForce(p, WallForce(p, walls[..j], k, gam))
    requires q == AddForce(before, WallContact(before, walls[j], k, gam))
    ensures q == AddForce(p, WallForce(p, walls[..j + 1], k, gam))
  {
    WallContactIgnoresForce(p, before, walls[j], k, gam);
    assert walls[..j + 1][..j] == walls[..j];
    var fj, c := WallForce(p, walls[..j], k, gam), WallContact(p, walls[j], k, gam);
    assert WallForce(p, walls[..j + 1], k, gam) == Add(fj, c);
    AddAssoc(p.f, fj, c);
  }

  lemma AddAssoc(a: Vec3, b: Vec3, c: Vec3)
    ensures Add(Add(a, b), c) == Add(a, Add(b, c))
  {
  }

  /** The wall loop: each particle gains the force of every wall it reaches. */
  method AddWallForces(ps: seq<Particle>, walls: seq<Wall>, k: real, gam: real) returns (qs: seq<Particle>)
    ensures SameBodies(ps, qs)
    ensures forall i :: 0 <= i < |ps| ==> qs[i].f == Add(ps[i].f, WallForce(ps[i], walls, k, gam))
    ensures TotalForce(qs) == Add(TotalForce(ps), WallTotal(ps, walls, k, gam))
  {
    qs := ps;
    var i := 0;
    while i < |qs|
      invariant 0 <= i <= |qs| == |ps|
      invariant forall m :: 0 <= m < i ==> qs[m] == WithWalls(ps[m], walls, k, gam)
      invariant forall m :: i <= m < |ps| ==> qs[m] == ps[m]
    {
      var q := AddWallsToParticle(qs[i], walls, k, gam);
      qs := qs[i := q];
      i := i + 1;
    }
    WallsTotal(ps, qs, walls, k, gam);
  }

  lemma {:induction false} WallsTotal(ps: seq<Particle>, qs: seq<Particle>, walls: seq<Wall>, k: real, gam: real)
    requires |qs| == |ps|
    requires forall m :: 0 <= m < |ps| ==> qs[m].f == Add(ps[m].f, WallForce(ps[m], walls, k, gam))
    ensures TotalForce(qs) == Add(TotalForce(ps), WallTotal(ps, walls, k, gam))
    decreases |ps|
  {
    if |ps| > 0 {
      WallsTotal(ps[..|ps| - 1], qs[..|qs| - 1], walls, k, gam);
    }
  }

  /** The wall force only depends on the radius, position and velocity. */
  lemma {:induction false} WallForceIgnoresForce(p: Particle, q: Particle, walls: seq<Wall>, k: real, gam: real)
    requires q == p.(f := q.f)
    ensures WallForce(q, walls, k, gam) == WallForce(p, walls, k, gam)
    decreases |walls|
  {
    if |walls| > 0 {
      WallForceIgnoresForce(p, q, walls[..|walls| - 1], k, gam);
      WallContactIgnoresForce(p, q, walls[|walls| - 1], k, gam);
    }
  }

  lemma WallContactIgnoresForce(p: Particle, q: Particle, w: Wall, k: real, gam: real)
    requires q == p.(f := q.f)
    ensures WallContact(q, w, k, gam) == WallContact(p, w, k, gam)
  {
    assert q.a == p.a && q.r == p.r && q.v == p.v;
  }
}

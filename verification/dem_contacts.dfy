/**
 The particle-particle part of the force computation: every unordered pair
 `(i, j)`, `i < j`, is visited once in sequence order; a touching pair adds
 the contact force to `i` and its negation to `j`.

 The sums over pairs are stated for an arbitrary pair law (a function giving
 the force on the first particle of a pair); `PairLaw` is the solver's
 spring-dashpot law.
 */
module DemContacts {
  import opened Vec3s
  import opened DemEntities
  import opened DemForces

  function DistanceSquared(p: Body, q: Body): real {
    LengthSquared(Sub(p.r, q.r))
  }

  /** The cheap contact test: the squared sum of radii exceeds the squared distance. */
  predicate InContact(p: Body, q: Body) {
    (p.a + q.a) * (p.a + q.a) > DistanceSquared(p, q)
  }

  /**
   A touching pair must have distinct centres, so that the unit normal
   exists (coincident centres divide by zero in the solver).
   */
  predicate Separable(p: Body, q: Body, sqrt: real -> real) {
    InContact(p, q) ==> sqrt(DistanceSquared(p, q)) != 0.0
  }

  predicate WellSeparated(ps: seq<Particle>, sqrt: real -> real) {
    forall i, j :: 0 <= i < j < |ps| ==> Separable(BodyOf(ps[i]), BodyOf(ps[j]), sqrt)
  }

  /**
   The contact force on `p` from `q`: a spring-dashpot force along the unit
   normal pointing from `q` to `p`, and nothing when they do not touch.
   */
  function PairContact(p: Body, q: Body, k: real, gam: real, sqrt: real -> real): Vec3
    requires Separable(p, q, sqrt)
  {
    if InContact(p, q) then ContactAlong(p, q, k, gam, sqrt(DistanceSquared(p, q))) else Zero
  }

  /**
   The spring-dashpot force on `p` from `q` when their centres are
   `distance` apart: along the unit normal from `q` to `p`, `k` times the
   overlap plus `gam` times the normal relative velocity.
   */
  function ContactAlong(p: Body, q: Body, k: real, gam: real, distance: real): Vec3
    requires distance != 0.0
  {
    var overlap := p.a + q.a - distance;
    var normal := Div(Sub(p.r, q.r), distance);
    var vreln := Dot(Sub(p.v, q.v), normal);
    var normalForce := k * overlap + gam * vreln;
    Scale(normal, normalForce)
  }

  /**
   The solver's spring-dashpot law as a function value.  It is only applied
   to separable pairs; the guard keeps the division by the distance defined.
   */
  function PairLaw(k: real, gam: real, sqrt: real -> real): (Body, Body) -> Vec3 {
    (p: Body, q: Body) => if Separable(p, q, sqrt) then PairContact(p, q, k, gam, sqrt) else Zero
  }

  /** A pair that does not touch exerts no force. */
  lemma PairLawNeedsContact(p: Body, q: Body, k: real, gam: real, sqrt: real -> real)
    requires !InContact(p, q)
    ensures PairLaw(k, gam, sqrt)(p, q) == Zero
  {
  }

  lemma DistanceSquaredSymmetric(p: Body, q: Body)
    ensures DistanceSquared(q, p) == DistanceSquared(p, q)
  {
    var d, e := Sub(p.r, q.r), Sub(q.r, p.r);
    assert e == Neg(d);
    assert e.x * e.x == d.x * d.x && e.y * e.y == d.y * d.y && e.z * e.z == d.z * d.z;
  }

  lemma NegDiv(a: Vec3, d: real)
    requires d != 0.0
    ensures Div(Neg(a), d) == Neg(Div(a, d))
  {
  }

  lemma DotNegNeg(a: Vec3, b: Vec3)
    ensures Dot(Neg(a), Neg(b)) == Dot(a, b)
  {
  }

  lemma ScaleNeg(a: Vec3, s: real)
    ensures Scale(Neg(a), s) == Neg(Scale(a, s))
  {
  }

  /**
   The law does not depend on the enumeration order: computed with the
   particles swapped it gives exactly the negated force, so the `i < j`
   loop applies to the second particle what the law assigns to it.
   */
  lemma PairLawAntisymmetric(p: Body, q: Body, k: real, gam: real, sqrt: real -> real)
    ensures PairLaw(k, gam, sqrt)(q, p) == Neg(PairLaw(k, gam, sqrt)(p, q))
  {
    DistanceSquaredSymmetric(p, q);
    assert InContact(q, p) == InContact(p, q);
    assert Separable(q, p, sqrt) == Separable(p, q, sqrt);
    if InContact(p, q) && Separable(p, q, sqrt) {
      PairContactAntisymmetric(p, q, k, gam, sqrt);
    }
  }

  lemma PairContactAntisymmetric(p: Body, q: Body, k: real, gam: real, sqrt: real -> real)
    requires InContact(p, q) && InContact(q, p)
    requires Separable(p, q, sqrt) && Separable(q, p, sqrt)
    requires DistanceSquared(q, p) == DistanceSquared(p, q)
    ensures PairContact(q, p, k, gam, sqrt) == Neg(PairContact(p, q, k, gam, sqrt))
  {
    ContactAlongAntisymmetric(p, q, k, gam, sqrt(DistanceSquared(p, q)));
  }

  /** Swapping the pair at the same distance reverses the normal and keeps its magnitude, so the force is negated. */
  lemma ContactAlongAntisymmetric(p: Body, q: Body, k: real, gam: real, distance: real)
    requires distance != 0.0
    ensures ContactAlong(q, p, k, gam, distance) == Neg(ContactAlong(p, q, k, gam, distance))
  {
    var normal := Div(Sub(p.r, q.r), distance);
    var normal' := Div(Sub(q.r, p.r), distance);
    assert Sub(q.r, p.r) == Neg(Sub(p.r, q.r));
    NegDiv(Sub(p.r, q.r), distance);
    assert Sub(q.v, p.v) == Neg(Sub(p.v, q.v));
    DotNegNeg(Sub(p.v, q.v), normal);
    var vreln := Dot(Sub(p.v, q.v), normal);
    assert Dot(Sub(q.v, p.v), normal') == vreln;
    var normalForce := k * (p.a + q.a - distance) + gam * vreln;
    assert q.a + p.a - distance == p.a + q.a - distance;
    ScaleNeg(normal, normalForce);
  }

  lemma DotDiv(a: Vec3, d: real)
    requires d != 0.0
    ensures Dot(Div(a, d), a) == LengthSquared(a) / d
  {
  }

  lemma DotScaleLeft(a: Vec3, s: real, b: Vec3)
    ensures Dot(Scale(a, s), b) == s * Dot(a, b)
  {
  }

  lemma SumOfRadiiExceedsDistance(s: real, d: real)
    requires s > 0.0 && d > 0.0 && s * s > d * d
    ensures s > d
  {
  }

  lemma SquareOverRoot(d2: real, d: real)
    requires d != 0.0 && d * d == d2
    ensures d2 / d == d
  {
  }

  /**
   Without damping and with positive stiffness and radii, a touching pair
   pushes the first particle away from the second: its force has a positive
   component along the line from the second centre to the first.  `sqrt` is
   only required to be a positive square root at the pair's squared distance.
   */
  lemma PairLawRepulsive(p: Body, q: Body, k: real, sqrt: real -> real)
    requires k > 0.0 && p.a > 0.0 && q.a > 0.0 && InContact(p, q)
    requires sqrt(DistanceSquared(p, q)) > 0.0
    requires sqrt(DistanceSquared(p, q)) * sqrt(DistanceSquared(p, q)) == DistanceSquared(p, q)
    ensures Dot(PairLaw(k, 0.0, sqrt)(p, q), Sub(p.r, q.r)) > 0.0
  {
    var distance := sqrt(DistanceSquared(p, q));
    SumOfRadiiExceedsDistance(p.a + q.a, distance);
    assert PairLaw(k, 0.0, sqrt)(p, q) == ContactAlong(p, q, k, 0.0, distance);
    ContactAlongRepulsive(p, q, k, distance);
  }

  /** Undamped, with positive stiffness and a positive overlap, the force points from `q` to `p`. */
  lemma ContactAlongRepulsive(p: Body, q: Body, k: real, distance: real)
    requires k > 0.0 && distance > 0.0 && p.a + q.a > distance
    requires distance * distance == DistanceSquared(p, q)
    ensures Dot(ContactAlong(p, q, k, 0.0, distance), Sub(p.r, q.r)) > 0.0
  {
    var normal := Div(Sub(p.r, q.r), distance);
    var overlap := p.a + q.a - distance;
    var normalForce := k * overlap + 0.0 * Dot(Sub(p.v, q.v), normal);
    assert normalForce == k * overlap;
    assert ContactAlong(p, q, k, 0.0, distance) == Scale(normal, normalForce);
    DotScaleLeft(normal, normalForce, Sub(p.r, q.r));
    DotDiv(Sub(p.r, q.r), distance);
    SquareOverRoot(DistanceSquared(p, q), distance);
    assert Dot(normal, Sub(p.r, q.r)) == distance;
    assert normalForce * distance > 0.0;
  }

  /**
   Two particles of radius 0.5 whose centres are 0.9 apart touch (1.0 > 0.81);
   without damping the first is pushed away from the second (along -x here)
   and the second receives the opposite force.
   */
  lemma HeadOnPair(k: real, sqrt: real -> real)
    requires k > 0.0 && sqrt(0.81) == 0.9
    ensures var p := Body(0.5, Vec3(0.0, 0.0, 0.0), Vec3(1.0, 0.0, 0.0));
            var q := Body(0.5, Vec3(0.9, 0.0, 0.0), Vec3(-1.0, 0.0, 0.0));
            && InContact(p, q)
            && PairLaw(k, 0.0, sqrt)(p, q).x < 0.0
            && PairLaw(k, 0.0, sqrt)(q, p) == Neg(PairLaw(k, 0.0, sqrt)(p, q))
  {
    var p := Body(0.5, Vec3(0.0, 0.0, 0.0), Vec3(1.0, 0.0, 0.0));
    var q := Body(0.5, Vec3(0.9, 0.0, 0.0), Vec3(-1.0, 0.0, 0.0));
    HeadOnGeometry(p, q);
    HeadOnForce(p, q, k, sqrt);
    PairLawAntisymmetric(p, q, k, 0.0, sqrt);
  }

  lemma HeadOnGeometry(p: Body, q: Body)
    requires p == Body(0.5, Vec3(0.0, 0.0, 0.0), Vec3(1.0, 0.0, 0.0))
    requires q == Body(0.5, Vec3(0.9, 0.0, 0.0), Vec3(-1.0, 0.0, 0.0))
    ensures Sub(p.r, q.r) == Vec3(-0.9, 0.0, 0.0) && DistanceSquared(p, q) == 0.81 && InContact(p, q)
  {
    assert Sub(p.r, q.r) == Vec3(-0.9, 0.0, 0.0);
    assert DistanceSquared(p, q) == (-0.9) * (-0.9) + 0.0 * 0.0 + 0.0 * 0.0;
  }

  /** The head-on pair: distance 0.9, unit normal `-x`, overlap 0.1, so the undamped force is `-0.1 k` along `x`. */
  lemma HeadOnForce(p: Body, q: Body, k: real, sqrt: real -> real)
    requires p == Body(0.5, Vec3(0.0, 0.0, 0.0), Vec3(1.0, 0.0, 0.0))
    requires q == Body(0.5, Vec3(0.9, 0.0, 0.0), Vec3(-1.0, 0.0, 0.0))
    requires sqrt(0.81) == 0.9
    ensures PairLaw(k, 0.0, sqrt)(p, q) == Vec3(-(k * 0.1), 0.0, 0.0)
  {
    HeadOnGeometry(p, q);
    assert sqrt(DistanceSquared(p, q)) == 0.9;
    assert Separable(p, q, sqrt);
    var normal := Div(Sub(p.r, q.r), 0.9);
    assert normal == Vec3(-1.0, 0.0, 0.0);
    var vreln := Dot(Sub(p.v, q.v), normal);
    assert vreln == 2.0 * (-1.0) + 0.0 * 0.0 + 0.0 * 0.0;
    var normalForce := k * (p.a + q.a - 0.9) + 0.0 * vreln;
    assert normalForce == k * 0.1;
    assert ContactAlong(p, q, k, 0.0, 0.9) == Scale(normal, normalForce);
    assert PairLaw(k, 0.0, sqrt)(p, q) == ContactAlong(p, q, k, 0.0, 0.9);
  }

  /** Sum of `law(ps[i], ps[j])` over `j` in `[lo, hi)`. */
  function FromPartners(ps: seq<Particle>, i: nat, lo: nat, hi: nat, law: (Body, Body) -> Vec3): Vec3
    requires i < |ps| && lo <= hi <= |ps|
    decreases hi - lo
  {
    if lo == hi then Zero
    else Add(FromPartners(ps, i, lo, hi - 1, law), law(BodyOf(ps[i]), BodyOf(ps[hi - 1])))
  }

  /** Sum of `law(ps[j], ps[i])` over `j` in `[0, hi)`. */
  function ToPartners(ps: seq<Particle>, i: nat, hi: nat, law: (Body, Body) -> Vec3): Vec3
    requires i < |ps| && hi <= |ps|
  {
    if hi == 0 then Zero
    else Add(ToPartners(ps, i, hi - 1, law), law(BodyOf(ps[hi - 1]), BodyOf(ps[i])))
  }

  /**
   The total contact force on particle `i`: what it receives as the first
   member of the pairs `(i, j)`, `j > i`, minus what it hands back as the
   second member of the pairs `(j, i)`, `j < i`.
   */
  function ContactForce(ps: seq<Particle>, i: nat, law: (Body, Body) -> Vec3): Vec3
    requires i < |ps|
  {
    Sub(FromPartners(ps, i, i + 1, |ps|, law), ToPartners(ps, i, i, law))
  }

  /** What row `a` of the pair loop, having visited the partners in `[a + 1, upto)`, added to particle `m`. */
  function RowEffect(ps: seq<Particle>, a: nat, upto: nat, m: nat, law: (Body, Body) -> Vec3): Vec3
    requires a < |ps| && a + 1 <= upto <= |ps| && m < |ps|
  {
    if m == a then FromPartners(ps, a, a + 1, upto, law)
    else if a < m < upto then Neg(law(BodyOf(ps[a]), BodyOf(ps[m])))
    else Zero
  }

  /** What the complete rows in `[0, rows)` added to particle `m`. */
  function RowsEffect(ps: seq<Particle>, rows: nat, m: nat, law: (Body, Body) -> Vec3): Vec3
    requires rows <= |ps| && m < |ps|
  {
    if rows == 0 then Zero
    else Add(RowsEffect(ps, rows - 1, m, law), RowEffect(ps, rows - 1, |ps|, m, law))
  }

  lemma {:induction false} RowsClosedForm(ps: seq<Particle>, rows: nat, m: nat, law: (Body, Body) -> Vec3)
    requires rows <= |ps| && m < |ps|
    ensures RowsEffect(ps, rows, m, law)
            == Sub(if m < rows then FromPartners(ps, m, m + 1, |ps|, law) else Zero,
                   ToPartners(ps, m, if rows < m then rows else m, law))
  {
    if rows > 0 {
      RowsClosedForm(ps, rows - 1, m, law);
    }
  }

  /** The particle with the contact force of the first `rows` rows, and `upto` partners of row `rows`, added. */
  function WithRows(p: Particle, ps: seq<Particle>, rows: nat, upto: nat, m: nat, law: (Body, Body) -> Vec3): Particle
    requires rows < |ps| && rows + 1 <= upto <= |ps| && m < |ps|
  {
    AddForce(p, Add(RowsEffect(ps, rows, m, law), RowEffect(ps, rows, upto, m, law)))
  }

  lemma {:induction false} FromPartnersZero(ps: seq<Particle>, i: nat, lo: nat, hi: nat, law: (Body, Body) -> Vec3)
    requires i < |ps| && lo <= hi <= |ps|
    requires forall j :: lo <= j < hi ==> law(BodyOf(ps[i]), BodyOf(ps[j])) == Zero
    ensures FromPartners(ps, i, lo, hi, law) == Zero
    decreases hi - lo
  {
    if lo < hi {
      FromPartnersZero(ps, i, lo, hi - 1, law);
    }
  }

  lemma {:induction false} ToPartnersZero(ps: seq<Particle>, i: nat, hi: nat, law: (Body, Body) -> Vec3)
    requires i < |ps| && hi <= |ps|
    requires forall j :: 0 <= j < hi ==> law(BodyOf(ps[j]), BodyOf(ps[i])) == Zero
    ensures ToPartners(ps, i, hi, law) == Zero
  {
    if hi > 0 {
      ToPartnersZero(ps, i, hi - 1, law);
    }
  }

  /** A particle that touches no other particle receives no contact force. */
  lemma IsolatedParticleFeelsNoContact(ps: seq<Particle>, i: nat, k: real, gam: real, sqrt: real -> real)
    requires i < |ps|
    requires forall j :: 0 <= j < |ps| && j != i ==> !InContact(BodyOf(ps[i]), BodyOf(ps[j]))
    ensures ContactForce(ps, i, PairLaw(k, gam, sqrt)) == Zero
  {
    var law := PairLaw(k, gam, sqrt);
    forall j | i + 1 <= j < |ps|
      ensures law(BodyOf(ps[i]), BodyOf(ps[j])) == Zero
    {
      PairLawNeedsContact(BodyOf(ps[i]), BodyOf(ps[j]), k, gam, sqrt);
    }
    forall j | 0 <= j < i
      ensures law(BodyOf(ps[j]), BodyOf(ps[i])) == Zero
    {
      DistanceSquaredSymmetric(BodyOf(ps[i]), BodyOf(ps[j]));
      PairLawNeedsContact(BodyOf(ps[j]), BodyOf(ps[i]), k, gam, sqrt);
    }
    FromPartnersZero(ps, i, i + 1, |ps|, law);
    ToPartnersZero(ps, i, i, law);
  }

  // ---------------------------------------------------------------- the loops

  lemma AddNegCancels(a: Vec3, c: Vec3)
    ensures Add(Add(a, c), Neg(c)) == a
  {
  }

  lemma AddZero(a: Vec3)
    ensures Add(a, Zero) == a
  {
  }

  lemma AddRegroup(f: Vec3, a: Vec3, b: Vec3, b': Vec3)
    ensures Add(Add(f, Add(a, b)), Sub(b', b)) == Add(f, Add(a, b'))
  {
  }

  /** `ts` is `rs` after the pair `(i, j)` was visited: `i` gains the pair force and `j` its negation. */
  predicate PairVisited(ps: seq<Particle>, rs: seq<Particle>, ts: seq<Particle>, i: nat, j: nat, law: (Body, Body) -> Vec3)
    requires i < j < |ps| == |rs|
  {
    ts == rs[i := AddForce(rs[i], law(BodyOf(ps[i]), BodyOf(ps[j])))][j := AddForce(rs[j], Neg(law(BodyOf(ps[i]), BodyOf(ps[j]))))]
  }

  /**
   One visit of the pair `(i, j)`, the body of the inner pair loop: `i` gains
   the pair force and `j` its negation (the law gives zero for a pair that
   does not touch).
   */
  method VisitPair(ps: seq<Particle>, rs: seq<Particle>, i: nat, j: nat, law: (Body, Body) -> Vec3)
    returns (ts: seq<Particle>)
    requires i < j < |ps| == |rs|
    requires BodyOf(rs[i]) == BodyOf(ps[i]) && BodyOf(rs[j]) == BodyOf(ps[j])
    ensures PairVisited(ps, rs, ts, i, j, law)
    ensures TotalForce(ts) == TotalForce(rs)
  {
    var p, q := rs[i], rs[j];
    var force := law(BodyOf(p), BodyOf(q));
    TotalForceUpdate(rs, i, force);
    ts := rs[i := AddForce(p, force)];
    TotalForceUpdate(ts, j, Neg(force));
    ts := ts[j := AddForce(q, Neg(force))];
    AddNegCancels(TotalForce(rs), force);
  }

  /** Visiting pair `(i, j)` extends row `i`'s effect on particle `m` from partners `< j` to partners `<= j`. */
  lemma VisitExtendsRow(ps: seq<Particle>, rs: seq<Particle>, ts: seq<Particle>, i: nat, j: nat, m: nat,
                        law: (Body, Body) -> Vec3)
    requires i < j < |ps| == |rs| && m < |ps|
    requires rs[m] == WithRows(ps[m], ps, i, j, m, law)
    requires PairVisited(ps, rs, ts, i, j, law)
    ensures ts[m] == WithRows(ps[m], ps, i, j + 1, m, law)
  {
    var force := law(BodyOf(ps[i]), BodyOf(ps[j]));
    var done := RowsEffect(ps, i, m, law);
    if m == i {
      assert RowEffect(ps, i, j + 1, m, law) == Add(RowEffect(ps, i, j, m, law), force);
      AddRegroup(ps[m].f, done, RowEffect(ps, i, j, m, law), RowEffect(ps, i, j + 1, m, law));
    } else if m == j {
      assert RowEffect(ps, i, j, m, law) == Zero;
      assert RowEffect(ps, i, j + 1, m, law) == Neg(force);
      AddRegroup(ps[m].f, done, Zero, Neg(force));
    } else {
      assert RowEffect(ps, i, j + 1, m, law) == RowEffect(ps, i, j, m, law);
    }
  }

  /** Row `i` of the pair loop has visited the partners `j` in `[i + 1, upto)`. */
  predicate RowVisited(ps: seq<Particle>, rs: seq<Particle>, i: nat, upto: nat, law: (Body, Body) -> Vec3)
    requires i < |ps| && i + 1 <= upto <= |ps|
  {
    rs == seq(|ps|, m requires 0 <= m < |ps| => WithRows(ps[m], ps, i, upto, m, law))
  }

  /** The complete rows `[0, rows)` of the pair loop are done. */
  predicate RowsDone(ps: seq<Particle>, qs: seq<Particle>, rows: nat, law: (Body, Body) -> Vec3)
    requires rows <= |ps|
  {
    qs == seq(|ps|, m requires 0 <= m < |ps| => AddForce(ps[m], RowsEffect(ps, rows, m, law)))
  }

  lemma RowStarts(ps: seq<Particle>, qs: seq<Particle>, i: nat, law: (Body, Body) -> Vec3)
    requires i < |ps| && RowsDone(ps, qs, i, law)
    ensures RowVisited(ps, qs, i, i + 1, law)
  {
    forall m | 0 <= m < |ps|
      ensures qs[m] == WithRows(ps[m], ps, i, i + 1, m, law)
    {
      AddZero(RowsEffect(ps, i, m, law));
    }
  }

  lemma RowExtends(ps: seq<Particle>, rs: seq<Particle>, ts: seq<Particle>, i: nat, j: nat, next: nat,
                   law: (Body, Body) -> Vec3)
    requires i < j < |ps| && next == j + 1 && RowVisited(ps, rs, i, j, law)
    requires PairVisited(ps, rs, ts, i, j, law)
    ensures RowVisited(ps, ts, i, next, law)
  {
    forall m | 0 <= m < |ps|
      ensures ts[m] == WithRows(ps[m], ps, i, next, m, law)
    {
      VisitExtendsRow(ps, rs, ts, i, j, m, law);
    }
  }

  lemma RowKeepsBodies(ps: seq<Particle>, rs: seq<Particle>, i: nat, j: nat, law: (Body, Body) -> Vec3)
    requires i < j < |ps| && RowVisited(ps, rs, i, j, law)
    ensures BodyOf(rs[i]) == BodyOf(ps[i]) && BodyOf(rs[j]) == BodyOf(ps[j])
  {
    assert rs[i] == WithRows(ps[i], ps, i, j, i, law);
    assert rs[j] == WithRows(ps[j], ps, i, j, j, law);
  }

  lemma RowFinishes(ps: seq<Particle>, rs: seq<Particle>, i: nat, law: (Body, Body) -> Vec3)
    requires i < |ps| && RowVisited(ps, rs, i, |ps|, law)
    ensures RowsDone(ps, rs, i + 1, law)
  {
  }

  /** The body of the inner pair loop, stated as the progress it makes through row `i`. */
  method VisitInRow(ps: seq<Particle>, rs: seq<Particle>, i: nat, j: nat, law: (Body, Body) -> Vec3)
    returns (ts: seq<Particle>, next: nat)
    requires i < j < |ps| && RowVisited(ps, rs, i, j, law)
    ensures next == j + 1 && RowVisited(ps, ts, i, next, law)
    ensures TotalForce(ts) == TotalForce(rs)
  {
    RowKeepsBodies(ps, rs, i, j, law);
    ts := VisitPair(ps, rs, i, j, law);
    next := j + 1;
    RowExtends(ps, rs, ts, i, j, next, law);
  }

  /** Row `i` of the pair loop: the pairs `(i, j)`, `j > i`, in order. */
  method AccumulateRow(ps: seq<Particle>, qs: seq<Particle>, i: nat, law: (Body, Body) -> Vec3)
    returns (rs: seq<Particle>)
    requires i < |ps| && RowsDone(ps, qs, i, law)
    ensures RowsDone(ps, rs, i + 1, law)
    ensures TotalForce(rs) == TotalForce(qs)
  {
    rs := qs;
    var n := |rs|;
    var j := i + 1;
    RowStarts(ps, qs, i, law);
    while j < n
      invariant i + 1 <= j <= n == |ps|
      invariant RowVisited(ps, rs, i, j, law)
      invariant TotalForce(rs) == TotalForce(qs)
    {
      rs, j := VisitInRow(ps, rs, i, j, law);
    }
    RowFinishes(ps, rs, i, law);
  }

  /**
   The particle-pair loop.  Every particle gains exactly its contact force,
   and, since each pair adds equal and opposite forces to its two particles,
   the total force of the system is unchanged (Newton's third law).
   */
  method AddPairForces(ps: seq<Particle>, law: (Body, Body) -> Vec3) returns (qs: seq<Particle>)
    ensures SameBodies(ps, qs)
    ensures forall i :: 0 <= i < |ps| ==> qs[i].f == Add(ps[i].f, ContactForce(ps, i, law))
    ensures TotalForce(qs) == TotalForce(ps)
  {
    qs := ps;
    var n := |qs|;
    NoRowsDone(ps, law);
    var i := 0;
    while i < n
      invariant 0 <= i <= n == |ps|
      invariant RowsDone(ps, qs, i, law)
      invariant TotalForce(qs) == TotalForce(ps)
    {
      qs := AccumulateRow(ps, qs, i, law);
      i := i + 1;
    }
    AllRowsDone(ps, qs, law);
  }

  lemma NoRowsDone(ps: seq<Particle>, law: (Body, Body) -> Vec3)
    ensures RowsDone(ps, ps, 0, law)
  {
    forall m | 0 <= m < |ps|
      ensures ps[m] == AddForce(ps[m], RowsEffect(ps, 0, m, law))
    {
      AddZero(ps[m].f);
    }
  }

  lemma AllRowsDone(ps: seq<Particle>, qs: seq<Particle>, law: (Body, Body) -> Vec3)
    requires RowsDone(ps, qs, |ps|, law)
    ensures SameBodies(ps, qs)
    ensures forall i :: 0 <= i < |ps| ==> qs[i].f == Add(ps[i].f, ContactForce(ps, i, law))
  {
    forall m | 0 <= m < |ps|
      ensures qs[m].f == Add(ps[m].f, ContactForce(ps, m, law))
    {
      RowsClosedForm(ps, |ps|, m, law);
    }
  }
}

/**
 The one-dimensional force benchmark: particles on a line, every unordered pair
 `i < j` visited once, and a "close" pair (distance below one half) pushes `+1`
 onto the lower index and `-1` onto the higher one.  The forces are therefore
 integer counts, modelled here as `int`.

 `ComputeForce` is the serial algorithm; `ComputeForceReduction` is the
 manual-reduction variant run one thread after another, each thread owning an
 arbitrary subset of the rows and a zero-initialised partial array that is
 added into the particles at the end.  Both are proved to produce the same
 closed-form forces.
 */
module PairForces {

  /** A particle of the benchmark: a position and a force accumulator. */
  datatype Particle = Particle(position: real, force: int)

  function Abs(x: real): real {
    if x < 0.0 then -x else x
  }

  function IntAbs(x: int): nat {
    if x < 0 then -x else x
  }

  function Min(a: int, b: int): int {
    if a < b then a else b
  }

  /** The interaction test of the benchmark: distance strictly below one half. */
  predicate Close(p: Particle, q: Particle) {
    Abs(p.position - q.position) < 0.5
  }

  lemma CloseSymmetric(p: Particle, q: Particle)
    ensures Close(p, q) == Close(q, p)
  {
  }

  /** Number of indices `j` in `[lo, hi)` whose particle is close to particle `k`. */
  function CountClose(ps: seq<Particle>, k: nat, lo: nat, hi: nat): (c: nat)
    requires k < |ps| && lo <= hi <= |ps|
    ensures c <= hi - lo
    decreases hi - lo
  {
    if lo == hi then 0
    else CountClose(ps, k, lo, hi - 1) + (if Close(ps[k], ps[hi - 1]) then 1 else 0)
  }

  /**
   The force the benchmark promises for particle `k`: one for every close
   partner above it, minus one for every close partner below it.
   */
  function PairCountForce(ps: seq<Particle>, k: nat): (f: int)
    requires k < |ps|
    ensures -(k as int) <= f <= |ps| - 1 - k
  {
    CountClose(ps, k, k + 1, |ps|) - CountClose(ps, k, 0, k)
  }

  /**
   What the inner loop of row `a`, having visited the partners `j` in
   `[a + 1, upto)`, has added to particle `k`.
   */
  function RowEffect(ps: seq<Particle>, a: nat, upto: nat, k: nat): int
    requires a < |ps| && a + 1 <= upto <= |ps| && k < |ps|
  {
    if k == a then CountClose(ps, a, a + 1, upto)
    else if a < k < upto && Close(ps[a], ps[k]) then -1
    else 0
  }

  /** What the complete rows `a` in `[0, rows)` have added to particle `k`. */
  function RowsEffect(ps: seq<Particle>, rows: nat, k: nat): int
    requires rows <= |ps| && k < |ps|
  {
    if rows == 0 then 0
    else RowsEffect(ps, rows - 1, k) + RowEffect(ps, rows - 1, |ps|, k)
  }

  /**
   What the complete rows in `[0, rows)` that are owned by a thread numbered in
   `[lo, hi)` have added to particle `k`.
   */
  function OwnedEffect(ps: seq<Particle>, owner: seq<nat>, lo: nat, hi: nat, rows: nat, k: nat): int
    requires |owner| == |ps| && rows <= |ps| && k < |ps|
  {
    if rows == 0 then 0
    else OwnedEffect(ps, owner, lo, hi, rows - 1, k)
         + (if lo <= owner[rows - 1] < hi then RowEffect(ps, rows - 1, |ps|, k) else 0)
  }

  lemma {:induction false} RowsEffectClosedForm(ps: seq<Particle>, rows: nat, k: nat)
    requires rows <= |ps| && k < |ps|
    ensures RowsEffect(ps, rows, k)
            == (if k < rows then CountClose(ps, k, k + 1, |ps|) else 0) - CountClose(ps, k, 0, Min(rows, k))
  {
    if rows > 0 {
      var a := rows - 1;
      RowsEffectClosedForm(ps, a, k);
      if a < k {
        CloseSymmetric(ps[a], ps[k]);
      }
    }
  }

  /** After every row, the rows have produced exactly the promised forces. */
  lemma AllRowsGivePairCountForce(ps: seq<Particle>, k: nat)
    requires k < |ps|
    ensures RowsEffect(ps, |ps|, k) == PairCountForce(ps, k)
  {
    RowsEffectClosedForm(ps, |ps|, k);
  }

  /** Two adjacent ranges of thread numbers own disjoint row sets whose effects add up. */
  lemma {:induction false} OwnedEffectSplit(ps: seq<Particle>, owner: seq<nat>, lo: nat, mid: nat, hi: nat, rows: nat, k: nat)
    requires |owner| == |ps| && rows <= |ps| && k < |ps| && lo <= mid <= hi
    ensures OwnedEffect(ps, owner, lo, hi, rows, k)
            == OwnedEffect(ps, owner, lo, mid, rows, k) + OwnedEffect(ps, owner, mid, hi, rows, k)
  {
    if rows > 0 {
      OwnedEffectSplit(ps, owner, lo, mid, hi, rows - 1, k);
    }
  }

  /** An empty range of thread numbers owns no rows. */
  lemma {:induction false} OwnedEffectEmpty(ps: seq<Particle>, owner: seq<nat>, t: nat, rows: nat, k: nat)
    requires |owner| == |ps| && rows <= |ps| && k < |ps|
    ensures OwnedEffect(ps, owner, t, t, rows, k) == 0
  {
    if rows > 0 {
      OwnedEffectEmpty(ps, owner, t, rows - 1, k);
    }
  }

  /** When every row has an owner in `[0, threads)`, the owners together did every row. */
  lemma {:induction false} OwnedEffectCoversAll(ps: seq<Particle>, owner: seq<nat>, threads: nat, rows: nat, k: nat)
    requires |owner| == |ps| && rows <= |ps| && k < |ps|
    requires forall i :: 0 <= i < |owner| ==> owner[i] < threads
    ensures OwnedEffect(ps, owner, 0, threads, rows, k) == RowsEffect(ps, rows, k)
  {
    if rows > 0 {
      OwnedEffectCoversAll(ps, owner, threads, rows - 1, k);
    }
  }

  /** The sum of all forces, accumulated front to back (`check`). */
  function Check(ps: seq<Particle>): int {
    if |ps| == 0 then 0 else Check(ps[..|ps| - 1]) + ps[|ps| - 1].force
  }

  /** The sum of the absolute forces (`checkAbs`); it bounds the plain sum. */
  function CheckAbs(ps: seq<Particle>): (s: int)
    ensures s >= IntAbs(Check(ps)) >= 0
  {
    if |ps| == 0 then 0 else CheckAbs(ps[..|ps| - 1]) + IntAbs(ps[|ps| - 1].force)
  }

  /** Adding `d` to one force adds `d` to the sum. */
  lemma {:induction false} CheckUpdate(ps: seq<Particle>, i: nat, d: int)
    requires i < |ps|
    ensures Check(ps[i := ps[i].(force := ps[i].force + d)]) == Check(ps) + d
    decreases |ps|
  {
    var qs := ps[i := ps[i].(force := ps[i].force + d)];
    var n := |ps| - 1;
    if i == n {
      assert qs[..n] == ps[..n];
    } else {
      assert qs[..n] == ps[..n][i := ps[i].(force := ps[i].force + d)];
      CheckUpdate(ps[..n], i, d);
    }
  }

  /** A configuration whose forces are all zero sums to zero. */
  lemma {:induction false} CheckOfZeroForces(ps: seq<Particle>)
    requires forall k :: 0 <= k < |ps| ==> ps[k].force == 0
    ensures Check(ps) == 0
    decreases |ps|
  {
    if |ps| > 0 {
      CheckOfZeroForces(ps[..|ps| - 1]);
    }
  }

  /** Zeroes every force (the first loop of both algorithms) and keeps the positions. */
  method ResetForces(ps: seq<Particle>) returns (qs: seq<Particle>)
    ensures |qs| == |ps|
    ensures forall k :: 0 <= k < |ps| ==> qs[k] == Particle(ps[k].position, 0)
  {
    qs := ps;
    var i := 0;
    while i < |qs|
      invariant 0 <= i <= |qs| == |ps|
      invariant forall k :: 0 <= k < i ==> qs[k] == Particle(ps[k].position, 0)
      invariant forall k :: i <= k < |ps| ==> qs[k] == ps[k]
    {
      qs := qs[i := qs[i].(force := 0)];
      i := i + 1;
    }
  }

  /** The particles after the complete rows `[0, i)` and the partners `[i + 1, upto)` of row `i`. */
  function RowState(ps: seq<Particle>, i: nat, upto: nat): seq<Particle>
    requires i < |ps| && i + 1 <= upto <= |ps|
  {
    seq(|ps|, k requires 0 <= k < |ps| => Particle(ps[k].position, RowsEffect(ps, i, k) + RowEffect(ps, i, upto, k)))
  }

  /** One visit of the pair `(i, j)`: a close pair pushes `+1` onto `i` and `-1` onto `j`. */
  method VisitPair(ps: seq<Particle>, rs: seq<Particle>, i: nat, j: nat) returns (ts: seq<Particle>, next: nat)
    requires i < j < |ps| && rs == RowState(ps, i, j)
    ensures next == j + 1 && ts == RowState(ps, i, next)
    ensures Check(ts) == Check(rs)
  {
    next := j + 1;
    ts := rs;
    var distance := Abs(ts[i].position - ts[j].position);
    if distance < 0.5 {
      CheckUpdate(ts, i, 1);
      ts := ts[i := ts[i].(force := ts[i].force + 1)];
      CheckUpdate(ts, j, -1);
      ts := ts[j := ts[j].(force := ts[j].force - 1)];
    }
    Visited(ps, rs, ts, i, j, next);
  }

  /** The pair update of `VisitPair`, applied to the state before the visit, is the state after it. */
  lemma Visited(ps: seq<Particle>, rs: seq<Particle>, ts: seq<Particle>, i: nat, j: nat, next: nat)
    requires i < j < |ps| && next == j + 1 && rs == RowState(ps, i, j)
    requires Close(rs[i], rs[j]) ==> ts == rs[i := rs[i].(force := rs[i].force + 1)][j := rs[j].(force := rs[j].force - 1)]
    requires !Close(rs[i], rs[j]) ==> ts == rs
    ensures ts == RowState(ps, i, next)
  {
    forall k | 0 <= k < |ps|
      ensures ts[k] == RowState(ps, i, next)[k]
    {
      RowStateStep(ps, i, j, next, k);
    }
  }

  /** Visiting the pair `(i, j)` changes only the forces of `i` and `j`, and only when the pair is close. */
  lemma RowStateStep(ps: seq<Particle>, i: nat, j: nat, next: nat, k: nat)
    requires i < j < |ps| && next == j + 1 && k < |ps|
    ensures RowState(ps, i, next)[k].position == RowState(ps, i, j)[k].position == ps[k].position
    ensures k != i && k != j ==> RowState(ps, i, next)[k].force == RowState(ps, i, j)[k].force
    ensures k == i ==> RowState(ps, i, next)[k].force
                       == RowState(ps, i, j)[k].force + (if Close(ps[i], ps[j]) then 1 else 0)
    ensures k == j ==> RowState(ps, i, next)[k].force
                       == RowState(ps, i, j)[k].force - (if Close(ps[i], ps[j]) then 1 else 0)
  {
  }

  /** Row `i` of the serial pair loop: visits the partners `j > i` of particle `i`. */
  method AccumulateRow(ps: seq<Particle>, qs: seq<Particle>, i: nat) returns (rs: seq<Particle>)
    requires i < |ps| == |qs|
    requires forall k :: 0 <= k < |ps| ==> qs[k].position == ps[k].position
    requires forall k :: 0 <= k < |ps| ==> qs[k].force == RowsEffect(ps, i, k)
    ensures |rs| == |ps|
    ensures forall k :: 0 <= k < |ps| ==> rs[k].position == ps[k].position
    ensures forall k :: 0 <= k < |ps| ==> rs[k].force == RowsEffect(ps, i + 1, k)
    ensures Check(rs) == Check(qs)
  {
    rs := qs;
    var n := |rs|;
    var j := i + 1;
    RowBegins(ps, qs, i, j);
    while j < n
      invariant i + 1 <= j <= n == |ps|
      invariant rs == RowState(ps, i, j)
      invariant Check(rs) == Check(qs)
    {
      rs, j := VisitPair(ps, rs, i, j);
    }
    RowEnds(ps, rs, i, i + 1);
  }

  /** Before row `i`, the particles are the state of row `i` with no partner visited yet. */
  lemma RowBegins(ps: seq<Particle>, qs: seq<Particle>, i: nat, j: nat)
    requires i < |ps| == |qs| && j == i + 1
    requires forall k :: 0 <= k < |ps| ==> qs[k].position == ps[k].position
    requires forall k :: 0 <= k < |ps| ==> qs[k].force == RowsEffect(ps, i, k)
    ensures qs == RowState(ps, i, j)
  {
    assert forall k :: 0 <= k < |ps| ==> qs[k] == RowState(ps, i, j)[k];
  }

  /** After the last partner of row `i`, the particles carry the effect of the rows `[0, next)`. */
  lemma RowEnds(ps: seq<Particle>, rs: seq<Particle>, i: nat, next: nat)
    requires i < |ps| && next == i + 1 && rs == RowState(ps, i, |ps|)
    ensures |rs| == |ps|
    ensures forall k :: 0 <= k < |ps| ==> rs[k].position == ps[k].position
    ensures forall k :: 0 <= k < |ps| ==> rs[k].force == RowsEffect(ps, next, k)
  {
    forall k | 0 <= k < |ps|
      ensures rs[k].force == RowsEffect(ps, next, k)
    {
      RowsEffectNext(ps, i, next, k);
    }
  }

  /** The rows `[0, next)` are the rows `[0, i)` followed by row `i`. */
  lemma RowsEffectNext(ps: seq<Particle>, i: nat, next: nat, k: nat)
    requires i < |ps| && next == i + 1 && k < |ps|
    ensures RowsEffect(ps, next, k) == RowsEffect(ps, i, k) + RowEffect(ps, i, |ps|, k)
  {
  }

  /**
   The serial `computeForce`.  Whatever forces the particles carried before,
   afterwards each force is the promised pair count, its magnitude is below the
   particle count, the forces sum to zero, and no position has moved.
   */
  method ComputeForce(ps: seq<Particle>) returns (qs: seq<Particle>)
    ensures |qs| == |ps|
    ensures forall k :: 0 <= k < |ps| ==> qs[k].position == ps[k].position
    ensures forall k :: 0 <= k < |ps| ==> qs[k].force == PairCountForce(ps, k)
    ensures forall k :: 0 <= k < |ps| ==> -k <= qs[k].force <= |ps| - 1 - k
    ensures Check(qs) == 0
  {
    qs := ResetForces(ps);
    CheckOfZeroForces(qs);
    var n := |qs|;
    var i := 0;
    while i < n
      invariant 0 <= i <= n == |qs| == |ps|
      invariant forall k :: 0 <= k < n ==> qs[k].position == ps[k].position
      invariant forall k :: 0 <= k < n ==> qs[k].force == RowsEffect(ps, i, k)
      invariant Check(qs) == 0
    {
      qs := AccumulateRow(ps, qs, i);
      i := i + 1;
    }
    forall k | 0 <= k < n
      ensures qs[k].force == PairCountForce(ps, k)
    {
      AllRowsGivePairCountForce(ps, k);
    }
  }

  /**
   `computeForceReduction` run sequentially: thread `t` (of `threads`) handles
   the rows `i` with `owner[i] == t` into its own zero-initialised partial
   array, which is then added into the particles.  The outcome is exactly the
   serial one.
   */
  method ComputeForceReduction(ps: seq<Particle>, owner: seq<nat>, threads: nat) returns (qs: seq<Particle>)
    requires |owner| == |ps|
    requires forall i :: 0 <= i < |owner| ==> owner[i] < threads
    ensures |qs| == |ps|
    ensures forall k :: 0 <= k < |ps| ==> qs[k].position == ps[k].position
    ensures forall k :: 0 <= k < |ps| ==> qs[k].force == PairCountForce(ps, k)
  {
    qs := ResetForces(ps);
    var n := |qs|;
    forall k | 0 <= k < n
      ensures qs[k].force == OwnedEffect(ps, owner, 0, 0, n, k)
    {
      OwnedEffectEmpty(ps, owner, 0, n, k);
    }
    var t := 0;
    while t < threads
      invariant 0 <= t <= threads && n == |qs| == |ps|
      invariant forall k :: 0 <= k < n ==> qs[k].position == ps[k].position
      invariant forall k :: 0 <= k < n ==> qs[k].force == OwnedEffect(ps, owner, 0, t, n, k)
    {
      var partial := PartialForces(ps, owner, t);
      var m := 0;
      while m < n
        invariant 0 <= m <= n == |qs|
        invariant forall k :: 0 <= k < n ==> qs[k].position == ps[k].position
        invariant forall k :: 0 <= k < n ==>
            qs[k].force == OwnedEffect(ps, owner, 0, t, n, k) + (if k < m then partial[k] else 0)
      {
        qs := qs[m := qs[m].(force := qs[m].force + partial[m])];
        m := m + 1;
      }
      forall k | 0 <= k < n
        ensures qs[k].force == OwnedEffect(ps, owner, 0, t + 1, n, k)
      {
        OwnedEffectSplit(ps, owner, 0, t, t + 1, n, k);
      }
      t := t + 1;
    }
    forall k | 0 <= k < n
      ensures qs[k].force == PairCountForce(ps, k)
    {
      OwnedEffectCoversAll(ps, owner, threads, n, k);
      AllRowsGivePairCountForce(ps, k);
    }
  }

  /** The private part of one thread of the reduction: its partial force array. */
  method PartialForces(ps: seq<Particle>, owner: seq<nat>, t: nat) returns (partial: seq<int>)
    requires |owner| == |ps|
    ensures |partial| == |ps|
    ensures forall k :: 0 <= k < |ps| ==> partial[k] == OwnedEffect(ps, owner, t, t + 1, |ps|, k)
  {
    var n := |ps|;
    partial := seq(n, _ => 0);
    var i := 0;
    while i < n
      invariant 0 <= i <= n == |partial|
      invariant forall k :: 0 <= k < n ==> partial[k] == OwnedEffect(ps, owner, t, t + 1, i, k)
    {
      if owner[i] == t {
        var j := i + 1;
        while j < n
          invariant i + 1 <= j <= n == |partial|
          invariant forall k :: 0 <= k < n ==>
              partial[k] == OwnedEffect(ps, owner, t, t + 1, i, k) + RowEffect(ps, i, j, k)
        {
          var distance := Abs(ps[i].position - ps[j].position);
          if distance < 0.5 {
            partial := partial[i := partial[i] + 1];
            partial := partial[j := partial[j] + -1];
          }
          j := j + 1;
        }
      }
      i := i + 1;
    }
  }
}

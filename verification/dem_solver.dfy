/**
 The time loop of the particle solver: step the particles, advance the
 clock, and every `saveCount` steps append a save to the data file.
 */
module DemSolver {
  import opened Vec3s
  import opened Wrappers
  import opened DemEntities
  import opened DemContacts
  import opened DemStep
  import opened DemSnapshot

  /** How a run ends: all steps done, or stopped before a step the solver cannot take. */
  datatype Outcome = Completed | Degenerate(step: nat)

  /**
   The number of steps between saves.  The counter is incremented before it
   is compared, so a `saveCount` of zero saves after every step, like one.
   */
  function Period(saveCount: nat): nat {
    if saveCount == 0 then 1 else saveCount
  }

  /** A state one step can be taken from: no zero mass, no touching pair with coincident centres. */
  predicate Steppable(ps: seq<Particle>, sqrt: real -> real) {
    MassesNonZero(ps) && WellSeparated(ps, sqrt)
  }

  /** `next` applied `n` times from `x`, stopping for good at the first `None`. */
  function Iterate<T>(next: T -> Option<T>, x: T, n: nat): Option<T> {
    if n == 0 then Some(x)
    else match Iterate(next, x, n - 1)
      case None => None
      case Some(s) => next(s)
  }

  /** An iteration that has no successor after `n` steps reaches no later step. */
  lemma {:induction false} IterateStops<T>(next: T -> Option<T>, x: T, n: nat, m: nat)
    requires n < m && Iterate(next, x, n).Some? && next(Iterate(next, x, n).value) == None
    ensures Iterate(next, x, m) == None
    decreases m - n
  {
    if n + 1 < m {
      IterateStops(next, x, n, m - 1);
    }
  }

  /** One step of the time loop: the state after `s`, or `None` when `s` is not steppable. */
  function Next(walls: seq<Wall>, prm: Params, sqrt: real -> real): seq<Particle> -> Option<seq<Particle>> {
    s => if Steppable(s, sqrt) then Some(StepState(s, walls, prm, sqrt)) else None
  }

  /** The state after `n` steps, or `None` when a state before that is not steppable. */
  function Run(ps: seq<Particle>, walls: seq<Wall>, prm: Params, sqrt: real -> real, n: nat): Option<seq<Particle>> {
    Iterate(Next(walls, prm, sqrt), ps, n)
  }

  /** The clock after `n` steps: `dt` added `n` times, as the loop does. */
  function Clock(n: nat, dt: real): real {
    if n == 0 then 0.0 else Clock(n - 1, dt) + dt
  }

  /** Over exact arithmetic the accumulated clock is `n * dt`. */
  lemma {:induction false} ClockIsProduct(n: nat, dt: real)
    ensures Clock(n, dt) == n as real * dt
  {
    if n > 0 {
      ClockIsProduct(n - 1, dt);
      assert n as real * dt == (n - 1) as real * dt + dt;
    }
  }

  /** The save written after step `n`, if the run gets that far. */
  function SavedAt(ps: seq<Particle>, walls: seq<Wall>, prm: Params, sqrt: real -> real, n: nat): Option<Frame> {
    match Run(ps, walls, prm, sqrt, n)
      case None => None
      case Some(s) => Some(Frame(Clock(n, prm.dt), Views(s)))
  }

  /** The saves written so far are the ones after steps `p`, `2p`, ... */
  predicate SavesMatch(ps: seq<Particle>, walls: seq<Wall>, prm: Params, sqrt: real -> real, p: nat, frames: seq<Frame>) {
    EveryPeriod(Saves(ps, walls, prm, sqrt), p, frames)
  }

  /** The save written after each step count, as a function of the step count. */
  function Saves(ps: seq<Particle>, walls: seq<Wall>, prm: Params, sqrt: real -> real): nat -> Option<Frame> {
    (n: nat) => SavedAt(ps, walls, prm, sqrt, n)
  }

  /** Entry `j` of `frames` is `saved((j + 1) * p)`. */
  predicate EveryPeriod<T(==)>(saved: nat -> Option<T>, p: nat, frames: seq<T>) {
    forall j :: 0 <= j < |frames| ==> saved((j + 1) * p) == Some(frames[j])
  }

  lemma EveryPeriodExtend<T>(saved: nat -> Option<T>, p: nat, frames: seq<T>, n: nat, frame: T)
    requires EveryPeriod(saved, p, frames) && n == (|frames| + 1) * p && saved(n) == Some(frame)
    ensures EveryPeriod(saved, p, frames + [frame])
  {
    forall j | 0 <= j < |frames| + 1
      ensures saved((j + 1) * p) == Some((frames + [frame])[j])
    {
      if j < |frames| {
        assert (frames + [frame])[j] == frames[j];
      } else {
        assert (frames + [frame])[j] == frame;
      }
    }
  }

  /** Appending the save after the next period keeps the saves matching the run. */
  lemma SavesExtend(ps: seq<Particle>, walls: seq<Wall>, prm: Params, sqrt: real -> real, p: nat,
                    frames: seq<Frame>, n: nat, s: seq<Particle>)
    requires SavesMatch(ps, walls, prm, sqrt, p, frames)
    requires n == (|frames| + 1) * p && Run(ps, walls, prm, sqrt, n) == Some(s)
    ensures SavesMatch(ps, walls, prm, sqrt, p, frames + [Frame(Clock(n, prm.dt), Views(s))])
  {
    var frame := Frame(Clock(n, prm.dt), Views(s));
    assert Saves(ps, walls, prm, sqrt)(n) == Some(frame);
    EveryPeriodExtend(Saves(ps, walls, prm, sqrt), p, frames, n, frame);
  }

  /**
   Incrementing the counter `step % P` and comparing it with `saveCount`
   fires exactly when the next step is a multiple of the period `P`; then the
   number of saves grows by one, otherwise the counter just moves on.
   */
  lemma CounterStep(step: nat, saveCount: nat)
    ensures var p := Period(saveCount);
            (step % p + 1 >= saveCount <==> (step + 1) % p == 0)
    ensures var p := Period(saveCount);
            step % p + 1 >= saveCount ==> (step + 1) / p == step / p + 1 && step + 1 == (step / p + 1) * p
    ensures var p := Period(saveCount);
            step % p + 1 < saveCount ==> (step + 1) % p == step % p + 1 && (step + 1) / p == step / p
  {
    var p := Period(saveCount);
    var q, c := step / p, step % p;
    assert step == q * p + c;
    if c + 1 == p {
      assert step + 1 == (q + 1) * p;
      DivModUnique(step + 1, p, q + 1, 0);
    } else {
      DivModUnique(step + 1, p, q, c + 1);
    }
  }

  lemma DivModUnique(a: nat, p: nat, q: nat, r: nat)
    requires p > 0 && a == q * p + r && r < p
    ensures a / p == q && a % p == r
  {
    var q', r' := a / p, a % p;
    assert a == q' * p + r';
    if q' < q {
      Distribute(q - q', q', p);
      AtLeastOnce(q - q', p);
    } else if q' > q {
      Distribute(q' - q, q, p);
      AtLeastOnce(q' - q, p);
    }
  }

  lemma Distribute(d: int, q: int, p: int)
    ensures (d + q) * p == d * p + q * p
  {
  }

  lemma AtLeastOnce(d: int, p: int)
    requires d >= 1 && p > 0
    ensures d * p >= p
  {
  }

  /**
   What the loop has established after `n` steps: the state is the run's,
   radii and masses are kept, the clock and the save counter have moved `n`
   times, and the file holds one save per completed period.
   */
  predicate Progress(ps: seq<Particle>, walls: seq<Wall>, prm: Params, sqrt: real -> real, n: nat,
                     final: seq<Particle>, data: seq<Line>, t: real, counter: nat, frames: seq<Frame>) {
    Run(ps, walls, prm, sqrt, n) == Some(final)
    && |final| == |ps| && (forall i :: 0 <= i < |ps| ==> final[i].a == ps[i].a && final[i].m == ps[i].m)
    && t == Clock(n, prm.dt)
    && SavesAfter(ps, walls, prm, sqrt, n, data, counter, frames)
  }

  /** The save bookkeeping of the loop after `n` steps: counter, number of saves, their contents, the file. */
  predicate SavesAfter(ps: seq<Particle>, walls: seq<Wall>, prm: Params, sqrt: real -> real, n: nat,
                       data: seq<Line>, counter: nat, frames: seq<Frame>) {
    counter == n % Period(prm.saveCount)
    && |frames| == n / Period(prm.saveCount)
    && SavesMatch(ps, walls, prm, sqrt, Period(prm.saveCount), frames)
    && data == EncodeFile(frames)
  }

  /**
   The end of a pass of the time loop, once step `n` has produced `final` at
   time `t`: increment the counter, and when it reaches `saveCount` reset it
   and append a save of `final`.
   */
  method Record(ps: seq<Particle>, walls: seq<Wall>, prm: Params, sqrt: real -> real, n: nat,
                final: seq<Particle>, t: real, data: seq<Line>, counter: nat, ghost frames: seq<Frame>)
    returns (data': seq<Line>, counter': nat, ghost frames': seq<Frame>)
    requires Run(ps, walls, prm, sqrt, n + 1) == Some(final) && t == Clock(n + 1, prm.dt)
    requires SavesAfter(ps, walls, prm, sqrt, n, data, counter, frames)
    ensures SavesAfter(ps, walls, prm, sqrt, n + 1, data', counter', frames')
    ensures counter' == (n + 1) % Period(prm.saveCount)
    ensures (n + 1) % Period(prm.saveCount) == 0 ==> data' == data + EncodeFrame(Frame(t, Views(final)))
    ensures (n + 1) % Period(prm.saveCount) != 0 ==> data' == data
  {
    ghost var p := Period(prm.saveCount);
    CounterStep(n, prm.saveCount);
    counter' := counter + 1;
    data', frames' := data, frames;
    if counter' >= prm.saveCount {
      counter' := 0;
      var frame := Frame(t, Views(final));
      data' := data + EncodeFrame(frame);
      EncodeFileAppend(frames, frame);
      assert n + 1 == (|frames| + 1) * p;
      SavesExtend(ps, walls, prm, sqrt, p, frames, n + 1, final);
      frames' := frames + [frame];
    }
  }

  /** One pass of the time loop from a steppable state: step, advance the clock, record. */
  method Tick(ps: seq<Particle>, walls: seq<Wall>, prm: Params, sqrt: real -> real, step: nat,
              final: seq<Particle>, data: seq<Line>, t: real, counter: nat, ghost frames: seq<Frame>)
    returns (final': seq<Particle>, data': seq<Line>, t': real, counter': nat, ghost frames': seq<Frame>)
    requires Progress(ps, walls, prm, sqrt, step, final, data, t, counter, frames)
    requires Steppable(final, sqrt)
    ensures Progress(ps, walls, prm, sqrt, step + 1, final', data', t', counter', frames')
    ensures final' == StepState(final, walls, prm, sqrt) && t' == t + prm.dt
    ensures counter' == (step + 1) % Period(prm.saveCount)
  {
    final' := Step(final, walls, prm, sqrt);
    assert Run(ps, walls, prm, sqrt, step + 1) == Some(final');
    t' := t + prm.dt;
    data', counter', frames' := Record(ps, walls, prm, sqrt, step, final', t', data, counter, frames);
  }

  /**
   The time loop for `steps` steps of size `dt`.  It completes exactly when
   the whole run is steppable, and otherwise stops at the first state that is
   not.  The final state is the run's state, radii and masses are kept, the
   clock is `dt` accumulated once per step taken, and the data file reads
   back to one save per `Period` steps, the j-th holding the state after
   `(j+1) * Period` steps.
   */
  method Solve(ps: seq<Particle>, walls: seq<Wall>, prm: Params, sqrt: real -> real, steps: nat)
    returns (outcome: Outcome, final: seq<Particle>, data: seq<Line>, t: real, counter: nat)
    ensures outcome.Completed? <==> Run(ps, walls, prm, sqrt, steps).Some?
    ensures outcome.Degenerate? ==> outcome.step < steps && !Steppable(final, sqrt)
    ensures var taken := if outcome.Completed? then steps else outcome.step;
            Run(ps, walls, prm, sqrt, taken) == Some(final)
            && t == Clock(taken, prm.dt)
            && counter == taken % Period(prm.saveCount)
            && DecodeFile(data).Some?
            && |DecodeFile(data).value| == taken / Period(prm.saveCount)
            && SavesMatch(ps, walls, prm, sqrt, Period(prm.saveCount), DecodeFile(data).value)
    ensures |final| == |ps| && forall i :: 0 <= i < |ps| ==> final[i].a == ps[i].a && final[i].m == ps[i].m
  {
    ghost var frames: seq<Frame> := [];
    final, data, t, counter := ps, [], 0.0, 0;
    var step := 0;
    while step < steps
      invariant step <= steps
      invariant Progress(ps, walls, prm, sqrt, step, final, data, t, counter, frames)
    {
      if !(MassesNonZero(final) && WellSeparated(final, sqrt)) {
        outcome := Degenerate(step);
        Concluded(ps, walls, prm, sqrt, step, final, data, t, counter, frames);
        RunStopsAt(ps, walls, prm, sqrt, step, steps);
        return;
      }
      final, data, t, counter, frames := Tick(ps, walls, prm, sqrt, step, final, data, t, counter, frames);
      step := step + 1;
    }
    outcome := Completed;
    Concluded(ps, walls, prm, sqrt, step, final, data, t, counter, frames);
  }

  /** What the loop's progress after `n` steps means for the caller: the data file reads back to the saves. */
  lemma Concluded(ps: seq<Particle>, walls: seq<Wall>, prm: Params, sqrt: real -> real, n: nat,
                  final: seq<Particle>, data: seq<Line>, t: real, counter: nat, frames: seq<Frame>)
    requires Progress(ps, walls, prm, sqrt, n, final, data, t, counter, frames)
    ensures Run(ps, walls, prm, sqrt, n) == Some(final)
            && t == Clock(n, prm.dt)
            && counter == n % Period(prm.saveCount)
            && DecodeFile(data) == Some(frames)
            && |frames| == n / Period(prm.saveCount)
            && SavesMatch(ps, walls, prm, sqrt, Period(prm.saveCount), frames)
    ensures |final| == |ps| && forall i :: 0 <= i < |ps| ==> final[i].a == ps[i].a && final[i].m == ps[i].m
  {
    EncodeDecodeFile(frames);
  }

  /** A run that cannot take step `n` reaches no later step. */
  lemma RunStopsAt(ps: seq<Particle>, walls: seq<Wall>, prm: Params, sqrt: real -> real, n: nat, m: nat)
    requires n < m
    requires Run(ps, walls, prm, sqrt, n).Some? && !Steppable(Run(ps, walls, prm, sqrt, n).value, sqrt)
    ensures Run(ps, walls, prm, sqrt, m) == None
  {
    IterateStops(Next(walls, prm, sqrt), ps, n, m);
  }
}

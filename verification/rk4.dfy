/**
 The classical fourth-order Runge-Kutta driver for a first-order ODE
 `y' = f(x, y)`.  The output vectors are 1-based in the solver; here entry
 `i` lives at sequence index `i - 1`.
 */
module Rk4 {

  /** The trial value `y + k * c` at which a stage evaluates the right-hand side. */
  function Stage(y: real, k: real, c: real): real {
    y + k * c
  }

  /** The weighted average of the four stage slopes applied over a step `h`. */
  function Combine(y: real, h: real, k1: real, k2: real, k3: real, k4: real): real {
    y + (k1 + 2.0 * k2 + 2.0 * k3 + k4) * h / 6.0
  }

  /** One step of the recurrence from `(x, y)` with step `h`. */
  function RK4Step(f: (real, real) -> real, x: real, y: real, h: real): real {
    var k1 := f(x, y);
    var k2 := f(x + 0.5 * h, Stage(y, k1, 0.5 * h));
    var k3 := f(x + 0.5 * h, Stage(y, k2, 0.5 * h));
    var k4 := f(x + h, Stage(y, k3, h));
    Combine(y, h, k1, k2, k3, k4)
  }

  /** The abscissa of point `i` (1-based). */
  function GridX(xs: real, h: real, i: nat): real {
    xs + (i as int - 1) as real * h
  }

  /** The value the recurrence assigns to point `i` (1-based), starting from `ys` at `xs`. */
  function Point(f: (real, real) -> real, xs: real, ys: real, h: real, i: nat): real
    requires i >= 1
  {
    if i == 1 then ys else RK4Step(f, GridX(xs, h, i - 1), Point(f, xs, ys, h, i - 1), h)
  }

  /** The number of points written: point 1 always, and points up to `n`. */
  function Filled(n: int): nat {
    if n >= 1 then n else 1
  }

  /** Moving one step from a grid point lands on the next grid point. */
  lemma GridStep(xs: real, h: real, i: nat)
    requires i >= 1
    ensures GridX(xs, h, i) + h == GridX(xs, h, i + 1)
  {
  }

  // ---------------------------------------------------------------- the driver and its user function

  /**
   The user function as the driver sees it: it receives `(x, y)` and
   overwrites `y` with `f(x, y)`, and it may update state the driver cannot
   see (a class-wide counter, say).  That state is threaded through every call.
   */
  type UserFunction<!S> = (S, real, real) -> (S, real)

  /**
   One recurrence step with a stateful user function: the four evaluations,
   in the order the driver makes them, with the state after the last one.
   */
  function StepWith<S>(uf: UserFunction<S>, s: S, x: real, y: real, h: real): (S, real) {
    var e1 := uf(s, x, y);
    var e2 := uf(e1.0, x + 0.5 * h, Stage(y, e1.1, 0.5 * h));
    var e3 := uf(e2.0, x + 0.5 * h, Stage(y, e2.1, 0.5 * h));
    var e4 := uf(e3.0, x + h, Stage(y, e3.1, h));
    (e4.0, Combine(y, h, e1.1, e2.1, e3.1, e4.1))
  }

  /** One call `(*uf)(x, y)`: the user function overwrites `y` and may update its state. */
  method Call<S>(uf: UserFunction<S>, s: S, x: real, y: real) returns (s': S, y': real)
    ensures (s', y') == uf(s, x, y)
  {
    var e := uf(s, x, y);
    s', y' := e.0, e.1;
  }

  /** What the driver holds once a point is written: the hidden state, the value and its derivative. */
  datatype Written<S> = Written(state: S, value: real, slope: real)

  /**
   Point `i` (1-based) as the driver writes it, starting in state `s`.
   Point 1 is the initial value with one evaluation for its derivative;
   each later point is a step from the previous one followed by a fifth
   evaluation, at the previous abscissa plus `h`, for its derivative.
   */
  function Run<S>(uf: UserFunction<S>, s: S, xs: real, ys: real, h: real, i: nat): Written<S>
    requires i >= 1
  {
    if i == 1 then
      var e := uf(s, xs, ys);
      Written(e.0, ys, e.1)
    else
      var w := Run(uf, s, xs, ys, h, i - 1);
      var step := StepWith(uf, w.state, GridX(xs, h, i - 1), w.value, h);
      var e := uf(step.0, GridX(xs, h, i - 1) + h, step.1);
      Written(e.0, step.1, e.1)
  }

  /**
   The driver.  Points `1 .. n` and their derivatives are those of `Run`,
   point 1 is written even when `n < 1`, no other entry is touched, the
   result is always success, and the user function's state ends as `Run`
   leaves it after the last point.
   */
  method Solve<S>(dVy: seq<real>, dVdydx: seq<real>, n: int, xs: real, ys: real, h: real,
                  uf: UserFunction<S>, s: S)
    returns (ok: bool, y: seq<real>, dydx: seq<real>, s': S)
    requires 1 <= |dVy| && 1 <= |dVdydx| && n <= |dVy| && n <= |dVdydx|
    ensures ok
    ensures |y| == |dVy| && |dydx| == |dVdydx|
    ensures forall k :: 0 <= k < Filled(n) ==> y[k] == Run(uf, s, xs, ys, h, k + 1).value
    ensures forall k :: 0 <= k < Filled(n) ==> dydx[k] == Run(uf, s, xs, ys, h, k + 1).slope
    ensures forall k :: Filled(n) <= k < |dVy| ==> y[k] == dVy[k]
    ensures forall k :: Filled(n) <= k < |dVdydx| ==> dydx[k] == dVdydx[k]
    ensures s' == Run(uf, s, xs, ys, h, Filled(n)).state
  {
    var yv := ys;
    var x := xs;
    y := dVy[0 := yv];
    var yt := yv;
    s', yt := Call(uf, s, x, yt);
    dydx := dVdydx[0 := yt];
    var i := 2;
    while i <= n
      invariant 2 <= i <= Filled(n) + 1
      invariant Filling(dVy, dVdydx, xs, ys, h, uf, s, i, x, yv, s', y, dydx)
    {
      x, yv, s', y, dydx := FillPoint(dVy, dVdydx, xs, ys, h, uf, s, i, x, yv, s', y, dydx);
      i := i + 1;
    }
    ok := true;
  }

  /**
   What the driver loop knows before computing point `i`: `x` is the
   abscissa, `yv` the value and `st` the user function's state once point
   `i - 1` is written, points `1 .. i - 1` and their derivatives are
   written, and everything from point `i` on is untouched.
   */
  ghost predicate Filling<S>(dVy: seq<real>, dVdydx: seq<real>, xs: real, ys: real, h: real, uf: UserFunction<S>, s: S,
                             i: nat, x: real, yv: real, st: S, y: seq<real>, dydx: seq<real>) {
    i >= 2 && |y| == |dVy| && |dydx| == |dVdydx| && i - 1 <= |dVy| && i - 1 <= |dVdydx|
    && x == GridX(xs, h, i - 1)
    && yv == Run(uf, s, xs, ys, h, i - 1).value
    && st == Run(uf, s, xs, ys, h, i - 1).state
    && (forall k :: 0 <= k < i - 1 ==> y[k] == Run(uf, s, xs, ys, h, k + 1).value)
    && (forall k :: 0 <= k < i - 1 ==> dydx[k] == Run(uf, s, xs, ys, h, k + 1).slope)
    && (forall k :: i - 1 <= k < |dVy| ==> y[k] == dVy[k])
    && (forall k :: i - 1 <= k < |dVdydx| ==> dydx[k] == dVdydx[k])
  }

  /** One pass of the driver loop: compute point `i`, store it and its derivative, move `x` on. */
  method FillPoint<S>(dVy: seq<real>, dVdydx: seq<real>, xs: real, ys: real, h: real, uf: UserFunction<S>, s: S,
                      i: nat, x: real, yv: real, st: S, y: seq<real>, dydx: seq<real>)
    returns (x': real, yv': real, st': S, y': seq<real>, dydx': seq<real>)
    requires Filling(dVy, dVdydx, xs, ys, h, uf, s, i, x, yv, st, y, dydx)
    requires i <= |dVy| && i <= |dVdydx|
    ensures Filling(dVy, dVdydx, xs, ys, h, uf, s, i + 1, x', yv', st', y', dydx')
  {
    var yip1, d;
    st', yip1, d := Advance(uf, st, x, yv, h);
    y' := y[i - 1 := yip1];
    yv' := yip1;
    x' := xs + (i - 1) as real * h;
    dydx' := dydx[i - 1 := d];
    FillingStep(dVy, dVdydx, xs, ys, h, uf, s, i, x, yv, st, y, dydx, st', yip1, d);
  }

  lemma FillingStep<S>(dVy: seq<real>, dVdydx: seq<real>, xs: real, ys: real, h: real, uf: UserFunction<S>, s: S,
                       i: nat, x: real, yv: real, st: S, y: seq<real>, dydx: seq<real>, st': S, yip1: real, d: real)
    requires Filling(dVy, dVdydx, xs, ys, h, uf, s, i, x, yv, st, y, dydx)
    requires i <= |dVy| && i <= |dVdydx|
    requires yip1 == StepWith(uf, st, x, yv, h).1
    requires (st', d) == uf(StepWith(uf, st, x, yv, h).0, x + h, yip1)
    ensures Filling(dVy, dVdydx, xs, ys, h, uf, s, i + 1, xs + (i - 1) as real * h, yip1, st',
                    y[i - 1 := yip1], dydx[i - 1 := d])
  {
    var w := Run(uf, s, xs, ys, h, i);
    assert w.value == yip1 && w.slope == d && w.state == st';
    assert xs + (i - 1) as real * h == GridX(xs, h, i);
  }

  /**
   The body of the driver loop for one point: four evaluations give the next
   value, and a fifth gives the derivative there, evaluated at `x + h`.  The
   user function's state passes through all five calls in order.
   */
  method Advance<S>(uf: UserFunction<S>, st: S, x: real, y: real, h: real) returns (st': S, yip1: real, d: real)
    ensures yip1 == StepWith(uf, st, x, y, h).1
    ensures (st', d) == uf(StepWith(uf, st, x, y, h).0, x + h, yip1)
  {
    var s := st;
    var yt := y;
    s, yt := Call(uf, s, x, yt);
    var k1 := yt;
    var xt := x + 0.5 * h;
    yt := y + k1 * 0.5 * h;
    HalfStage(y, k1, h);
    s, yt := Call(uf, s, xt, yt);
    var k2 := yt;
    xt := x + 0.5 * h;
    yt := y + k2 * 0.5 * h;
    HalfStage(y, k2, h);
    s, yt := Call(uf, s, xt, yt);
    var k3 := yt;
    xt := x + h;
    yt := y + k3 * h;
    FullStage(y, k3, h);
    s, yt := Call(uf, s, xt, yt);
    var k4 := yt;
    yip1 := y + (k1 + 2.0 * k2 + 2.0 * k3 + k4) * h / 6.0;
    Combined(y, h, k1, k2, k3, k4);
    assert (s, yip1) == StepWith(uf, st, x, y, h);
    st', d := Call(uf, s, xt, yip1);
  }

  lemma HalfStage(y: real, k: real, h: real)
    ensures Stage(y, k, 0.5 * h) == y + k * 0.5 * h
  {
  }

  lemma FullStage(y: real, k: real, h: real)
    ensures Stage(y, k, h) == y + k * h
  {
  }

  lemma Combined(y: real, h: real, k1: real, k2: real, k3: real, k4: real)
    ensures Combine(y, h, k1, k2, k3, k4) == y + (k1 + 2.0 * k2 + 2.0 * k3 + k4) * h / 6.0
  {
  }

  /** The recurrence in terms of its four stage values. */
  lemma StepFromStages(f: (real, real) -> real, x: real, y: real, h: real, k1: real, k2: real, k3: real, k4: real)
    requires k1 == f(x, y)
    requires k2 == f(x + 0.5 * h, Stage(y, k1, 0.5 * h))
    requires k3 == f(x + 0.5 * h, Stage(y, k2, 0.5 * h))
    requires k4 == f(x + h, Stage(y, k3, h))
    ensures RK4Step(f, x, y, h) == Combine(y, h, k1, k2, k3, k4)
  {
  }

  // ---------------------------------------------------------------- user functions that only count

  /**
   In every state satisfying `inv`, the user function returns the pure
   `f(x, y)`, keeps `inv`, and raises `count` by one: a counter of calls
   and nothing else.
   */
  ghost predicate Counting<S(!new)>(uf: UserFunction<S>, f: (real, real) -> real, count: S -> int, inv: S -> bool) {
    forall t, x, y {:trigger uf(t, x, y)} :: inv(t) ==>
      inv(uf(t, x, y).0) && count(uf(t, x, y).0) == count(t) + 1 && uf(t, x, y).1 == f(x, y)
  }

  /** One call of a counting user function. */
  lemma Counted<S(!new)>(uf: UserFunction<S>, f: (real, real) -> real, count: S -> int, inv: S -> bool,
                         t: S, x: real, y: real)
    requires Counting(uf, f, count, inv) && inv(t)
    ensures inv(uf(t, x, y).0) && count(uf(t, x, y).0) == count(t) + 1 && uf(t, x, y).1 == f(x, y)
  {
  }

  /** With a counting user function a step counts four calls and computes the pure recurrence step. */
  lemma StepWithCounting<S(!new)>(uf: UserFunction<S>, f: (real, real) -> real, count: S -> int, inv: S -> bool,
                                  t: S, x: real, y: real, h: real)
    requires Counting(uf, f, count, inv) && inv(t)
    ensures inv(StepWith(uf, t, x, y, h).0) && count(StepWith(uf, t, x, y, h).0) == count(t) + 4
    ensures StepWith(uf, t, x, y, h).1 == RK4Step(f, x, y, h)
  {
    var e1 := uf(t, x, y);
    Counted(uf, f, count, inv, t, x, y);
    var e2 := uf(e1.0, x + 0.5 * h, Stage(y, e1.1, 0.5 * h));
    Counted(uf, f, count, inv, e1.0, x + 0.5 * h, Stage(y, e1.1, 0.5 * h));
    var e3 := uf(e2.0, x + 0.5 * h, Stage(y, e2.1, 0.5 * h));
    Counted(uf, f, count, inv, e2.0, x + 0.5 * h, Stage(y, e2.1, 0.5 * h));
    var e4 := uf(e3.0, x + h, Stage(y, e3.1, h));
    Counted(uf, f, count, inv, e3.0, x + h, Stage(y, e3.1, h));
  }

  /**
   With a counting user function the driver's points are the pure
   recurrence's, each derivative is `f` at the previous abscissa plus `h`,
   and once point `i` is written the count has grown by one for point 1
   and five for each later point.
   */
  lemma {:induction false} RunCounting<S(!new)>(uf: UserFunction<S>, f: (real, real) -> real, count: S -> int, inv: S -> bool,
                                                s: S, xs: real, ys: real, h: real, i: nat)
    requires Counting(uf, f, count, inv) && inv(s) && i >= 1
    ensures inv(Run(uf, s, xs, ys, h, i).state)
    ensures count(Run(uf, s, xs, ys, h, i).state) == count(s) + 1 + 5 * (i - 1)
    ensures Run(uf, s, xs, ys, h, i).value == Point(f, xs, ys, h, i)
    ensures i == 1 ==> Run(uf, s, xs, ys, h, i).slope == f(xs, ys)
    ensures i >= 2 ==> Run(uf, s, xs, ys, h, i).slope == f(GridX(xs, h, i - 1) + h, Point(f, xs, ys, h, i))
  {
    if i == 1 {
      Counted(uf, f, count, inv, s, xs, ys);
    } else {
      RunCounting(uf, f, count, inv, s, xs, ys, h, i - 1);
      var w := Run(uf, s, xs, ys, h, i - 1);
      var x := GridX(xs, h, i - 1);
      StepWithCounting(uf, f, count, inv, w.state, x, w.value, h);
      var step := StepWith(uf, w.state, x, w.value, h);
      Counted(uf, f, count, inv, step.0, x + h, step.1);
      RunUnfold(uf, s, xs, ys, h, i, step.0, step.1);
    }
  }

  /** One unfolding of `Run` past point 1, given the step it takes. */
  lemma RunUnfold<S>(uf: UserFunction<S>, s: S, xs: real, ys: real, h: real, i: nat, t4: S, y5: real)
    requires i >= 2
    requires StepWith(uf, Run(uf, s, xs, ys, h, i - 1).state, GridX(xs, h, i - 1), Run(uf, s, xs, ys, h, i - 1).value, h)
             == (t4, y5)
    ensures Run(uf, s, xs, ys, h, i) == Written(uf(t4, GridX(xs, h, i - 1) + h, y5).0, y5, uf(t4, GridX(xs, h, i - 1) + h, y5).1)
  {
  }

  /** The entries a counting user function leaves in the driver's output, read as the pure recurrence. */
  lemma WrittenCounting<S(!new)>(uf: UserFunction<S>, f: (real, real) -> real, count: S -> int, inv: S -> bool,
                                 s: S, xs: real, ys: real, h: real, m: nat, y: seq<real>, dydx: seq<real>)
    requires Counting(uf, f, count, inv) && inv(s)
    requires 1 <= m <= |y| && m <= |dydx|
    requires forall k :: 0 <= k < m ==> y[k] == Run(uf, s, xs, ys, h, k + 1).value
    requires forall k :: 0 <= k < m ==> dydx[k] == Run(uf, s, xs, ys, h, k + 1).slope
    ensures forall k :: 0 <= k < m ==> y[k] == Point(f, xs, ys, h, k + 1)
    ensures dydx[0] == f(xs, ys)
    ensures forall k {:trigger dydx[k]} :: 1 <= k < m ==> dydx[k] == f(GridX(xs, h, k) + h, y[k])
  {
    forall k | 0 <= k < m
      ensures y[k] == Point(f, xs, ys, h, k + 1)
      ensures k >= 1 ==> dydx[k] == f(GridX(xs, h, k) + h, y[k])
    {
      WrittenAt(uf, f, count, inv, s, xs, ys, h, k, y[k], dydx[k]);
    }
    RunCounting(uf, f, count, inv, s, xs, ys, h, 1);
  }

  /**
   The driver run with a counting user function: the output is the pure
   recurrence of `f` and its derivatives, and the counter rises by one for
   point 1 and five for each later point, `1 + 5 * (n - 1)` in all.
   */
  method SolveCounted<S(!new)>(dVy: seq<real>, dVdydx: seq<real>, n: int, xs: real, ys: real, h: real,
                               uf: UserFunction<S>, s: S, ghost f: (real, real) -> real, ghost count: S -> int,
                               ghost inv: S -> bool)
    returns (y: seq<real>, dydx: seq<real>, s': S)
    requires 1 <= |dVy| && 1 <= |dVdydx| && n <= |dVy| && n <= |dVdydx|
    requires Counting(uf, f, count, inv) && inv(s)
    ensures inv(s') && count(s') == count(s) + 1 + 5 * (Filled(n) - 1)
    ensures |y| == |dVy| && |dydx| == |dVdydx|
    ensures forall k :: 0 <= k < Filled(n) ==> y[k] == Point(f, xs, ys, h, k + 1)
    ensures dydx[0] == f(xs, ys)
    ensures forall k {:trigger dydx[k]} :: 1 <= k < Filled(n) ==> dydx[k] == f(GridX(xs, h, k) + h, y[k])
    ensures forall k :: Filled(n) <= k < |dVy| ==> y[k] == dVy[k]
    ensures forall k :: Filled(n) <= k < |dVdydx| ==> dydx[k] == dVdydx[k]
  {
    var ok;
    ok, y, dydx, s' := Solve(dVy, dVdydx, n, xs, ys, h, uf, s);
    RunCounting(uf, f, count, inv, s, xs, ys, h, Filled(n));
    WrittenCounting(uf, f, count, inv, s, xs, ys, h, Filled(n), y, dydx);
  }

  /** One entry of `WrittenCounting`. */
  lemma WrittenAt<S(!new)>(uf: UserFunction<S>, f: (real, real) -> real, count: S -> int, inv: S -> bool,
                           s: S, xs: real, ys: real, h: real, k: nat, yk: real, dk: real)
    requires Counting(uf, f, count, inv) && inv(s)
    requires yk == Run(uf, s, xs, ys, h, k + 1).value && dk == Run(uf, s, xs, ys, h, k + 1).slope
    ensures yk == Point(f, xs, ys, h, k + 1)
    ensures k >= 1 ==> dk == f(GridX(xs, h, k) + h, yk)
  {
    var i := k + 1;
    RunCounting(uf, f, count, inv, s, xs, ys, h, i);
    assert i - 1 == k;
  }

  // ---------------------------------------------------------------- what the recurrence computes

  /**
   When `f` does not depend on `y`, one step is Simpson's rule for the
   integral of `f` over `[x, x + h]`.
   */
  lemma StepIsSimpson(f: (real, real) -> real, g: real -> real, x: real, y: real, h: real)
    requires forall s, t :: f(s, t) == g(s)
    ensures RK4Step(f, x, y, h) == y + h / 6.0 * (g(x) + 4.0 * g(x + 0.5 * h) + g(x + h))
  {
    var k1 := f(x, y);
    var k2 := f(x + 0.5 * h, Stage(y, k1, 0.5 * h));
    var k3 := f(x + 0.5 * h, Stage(y, k2, 0.5 * h));
    var k4 := f(x + h, Stage(y, k3, h));
    assert k1 == g(x) && k2 == g(x + 0.5 * h) && k3 == g(x + 0.5 * h) && k4 == g(x + h);
  }

  /** The fourth-order Taylor polynomial of `exp(z)`, the amplification factor of the method. */
  function Amplification(z: real): real {
    1.0 + z + z * z / 2.0 + z * z * z / 6.0 + z * z * z * z / 24.0
  }

  /** For the linear equation `y' = lambda * y` one step multiplies `y` by `Amplification(lambda * h)`. */
  lemma LinearStep(f: (real, real) -> real, lambda: real, x: real, y: real, h: real)
    requires forall s, t :: f(s, t) == lambda * t
    ensures RK4Step(f, x, y, h) == y * Amplification(lambda * h)
  {
    var k1 := f(x, y);
    var k2 := f(x + 0.5 * h, Stage(y, k1, 0.5 * h));
    var k3 := f(x + 0.5 * h, Stage(y, k2, 0.5 * h));
    var k4 := f(x + h, Stage(y, k3, h));
    LinearStages(lambda, y, h, k1, k2, k3, k4);
  }

  /** The stage algebra of a step of `y' = lambda * y`, with the stage slopes as plain values. */
  lemma LinearStages(lambda: real, y: real, h: real, k1: real, k2: real, k3: real, k4: real)
    requires k1 == lambda * y
    requires k2 == lambda * Stage(y, k1, 0.5 * h)
    requires k3 == lambda * Stage(y, k2, 0.5 * h)
    requires k4 == lambda * Stage(y, k3, h)
    ensures Combine(y, h, k1, k2, k3, k4) == y * Amplification(lambda * h)
  {
    var z := lambda * h;
    var w1 := z * y;
    var w2 := z * w1;
    var w3 := z * w2;
    var w4 := z * w3;
    var a1, a2, a3, a4 := k1 * h, k2 * h, k3 * h, k4 * h;
    FirstIncrement(lambda, h, y, k1);
    Increment(lambda, h, y, k1, 0.5, 0.5 * h, k2);
    Increment(lambda, h, y, k2, 0.5, 0.5 * h, k3);
    Increment(lambda, h, y, k3, 1.0, h, k4);
    SecondPower(z, y, a1, a2, w1, w2);
    ThirdPower(z, y, a2, a3, w1, w2, w3);
    FourthPower(z, y, a3, a4, w1, w2, w3, w4);
    Combined(y, h, k1, k2, k3, k4);
    IncrementsSum(h, k1, k2, k3, k4);
    Powers(y, z, w1, w2, w3, w4);
  }

  /** The first increment `k1 * h` of the linear equation is `z * y`, with `z == lambda * h`. */
  lemma FirstIncrement(lambda: real, h: real, y: real, k1: real)
    requires k1 == lambda * y
    ensures k1 * h == (lambda * h) * y
  {
  }

  /** A later increment is `z` times the trial value, written with the previous increment. */
  lemma Increment(lambda: real, h: real, y: real, kprev: real, c: real, s: real, k: real)
    requires s == c * h && k == lambda * Stage(y, kprev, s)
    ensures k * h == (lambda * h) * (y + (kprev * h) * c)
  {
    assert k * h == lambda * h * y + lambda * h * (kprev * s);
    assert kprev * s == (kprev * h) * c;
  }

  lemma SecondPower(z: real, y: real, a1: real, a2: real, w1: real, w2: real)
    requires w1 == z * y && w2 == z * w1
    requires a1 == z * y && a2 == z * (y + a1 * 0.5)
    ensures a2 == w1 + 0.5 * w2
  {
  }

  lemma ThirdPower(z: real, y: real, a2: real, a3: real, w1: real, w2: real, w3: real)
    requires w1 == z * y && w2 == z * w1 && w3 == z * w2
    requires a2 == w1 + 0.5 * w2 && a3 == z * (y + a2 * 0.5)
    ensures a3 == w1 + 0.5 * w2 + 0.25 * w3
  {
  }

  lemma FourthPower(z: real, y: real, a3: real, a4: real, w1: real, w2: real, w3: real, w4: real)
    requires w1 == z * y && w2 == z * w1 && w3 == z * w2 && w4 == z * w3
    requires a3 == w1 + 0.5 * w2 + 0.25 * w3 && a4 == z * (y + a3 * 1.0)
    ensures a4 == w1 + w2 + 0.5 * w3 + 0.25 * w4
  {
  }

  lemma IncrementsSum(h: real, k1: real, k2: real, k3: real, k4: real)
    ensures (k1 + 2.0 * k2 + 2.0 * k3 + k4) * h / 6.0 == (k1 * h + 2.0 * (k2 * h) + 2.0 * (k3 * h) + k4 * h) / 6.0
  {
  }

  /** `y * Amplification(z)` in terms of the powers `w_n == z^n * y`. */
  lemma Powers(y: real, z: real, w1: real, w2: real, w3: real, w4: real)
    requires w1 == z * y && w2 == z * w1 && w3 == z * w2 && w4 == z * w3
    ensures y * Amplification(z) == y + w1 + w2 / 2.0 + w3 / 6.0 + w4 / 24.0
  {
    assert y * (z * z) == w2;
    assert y * (z * z * z) == w3;
    assert y * (z * z * z * z) == w4;
  }
}

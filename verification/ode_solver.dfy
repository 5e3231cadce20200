/**
 The ODE solver front end: a solver object holding the problem data, a
 right-hand side selected by problem number, and a class-wide counter of
 right-hand-side evaluations.
 */
module OdeSolver {
  import opened Rk4

  /** The two class-wide variables: the evaluation counter and the selected problem. */
  datatype Globals = Globals(count: int, problem: int)

  /** Both class-wide variables start at zero. */
  const Initial: Globals := Globals(0, 0)

  /** The per-object data: number of points, start abscissa and value, end abscissa, step. */
  datatype Solver = Solver(size: int, xs: real, ys: real, xe: real, h: real)

  /**
   The constructor: stores the problem data in the new object and selects
   the problem class-wide.  It does not reset the evaluation counter.
   */
  function Construct(g: Globals, xs: real, ys: real, xe: real, h: real, points: int, pnum: int): (r: (Solver, Globals))
    ensures r.0.size == points && r.0.xs == xs && r.0.ys == ys && r.0.xe == xe && r.0.h == h
    ensures r.1.problem == pnum && r.1.count == g.count
  {
    (Solver(points, xs, ys, xe, h), g.(problem := pnum))
  }

  /** The right-hand side `f(x, y)` of problem `problem`; an unknown problem leaves `y` as it is. */
  function RightHandSide(problem: int, x: real, y: real): real {
    if problem == 1 then -2.0 * y
    else if problem == 2 then x * x - 5.0 * x + 10.0
    else y
  }

  /** The right-hand side as the function value handed to the Runge-Kutta driver. */
  function Rhs(problem: int): (real, real) -> real {
    (x, y) => RightHandSide(problem, x, y)
  }

  /**
   One user-function evaluation: the counter goes up by one and `y` is
   replaced by the selected problem's right-hand side.
   */
  function UserFunctionEvaluation(g: Globals, x: real, y: real): (r: (Globals, real))
    ensures r.0.count == g.count + 1 && r.0.problem == g.problem
    ensures g.problem == 1 ==> r.1 == -2.0 * y
    ensures g.problem == 2 ==> r.1 == x * x - 5.0 * x + 10.0
    ensures g.problem != 1 && g.problem != 2 ==> r.1 == y
  {
    (g.(count := g.count + 1), RightHandSide(g.problem, x, y))
  }

  /** The evaluation counter of a `Globals` value. */
  function Evaluated(g: Globals): int {
    g.count
  }

  /** The states in which problem `p` is selected. */
  function Selected(p: int): Globals -> bool {
    (g: Globals) => g.problem == p
  }

  /**
   While problem `p` stays selected, `UserFunctionEvaluation` is a pure
   right-hand side plus a counter: each call keeps the problem, counts one,
   and returns `Rhs(p)` whatever the counter holds.
   */
  lemma UserFunctionCounts(p: int)
    ensures Counting(UserFunctionEvaluation, Rhs(p), Evaluated, Selected(p))
  {
    forall t, x, y | Selected(p)(t)
      ensures Selected(p)(UserFunctionEvaluation(t, x, y).0)
      ensures Evaluated(UserFunctionEvaluation(t, x, y).0) == Evaluated(t) + 1
      ensures UserFunctionEvaluation(t, x, y).1 == Rhs(p)(x, y)
    {
    }
  }

  /**
   Runs the Runge-Kutta driver on the object's data, handing it
   `UserFunctionEvaluation`, and reports the class-wide counter afterwards.
   The counter grows by one per evaluation the driver makes,
   `1 + 5 * (n - 1)` for `n >= 1` points; from a fresh start the report is
   `5 * n - 4`.  Points `1 .. n` follow the recurrence for the selected
   right-hand side; nothing beyond is touched.
   */
  method GoCompute(s: Solver, g: Globals, y: seq<real>, dydx: seq<real>)
    returns (y': seq<real>, dydx': seq<real>, nFE: int, g': Globals)
    requires 1 <= |y| && 1 <= |dydx| && s.size <= |y| && s.size <= |dydx|
    ensures g'.problem == g.problem && g'.count == g.count + 1 + 5 * (Filled(s.size) - 1)
    ensures nFE == g'.count
    ensures g.count == Initial.count && s.size >= 1 ==> nFE == 5 * s.size - 4
    ensures |y'| == |y| && |dydx'| == |dydx|
    ensures forall k :: 0 <= k < Filled(s.size) ==> y'[k] == Point(Rhs(g.problem), s.xs, s.ys, s.h, k + 1)
    ensures dydx'[0] == RightHandSide(g.problem, s.xs, s.ys)
    ensures forall k {:trigger dydx'[k]} :: 1 <= k < Filled(s.size) ==> dydx'[k] == RightHandSide(g.problem, GridX(s.xs, s.h, k) + s.h, y'[k])
    ensures forall k :: Filled(s.size) <= k < |y| ==> y'[k] == y[k]
    ensures forall k :: Filled(s.size) <= k < |dydx| ==> dydx'[k] == dydx[k]
  {
    UserFunctionCounts(g.problem);
    y', dydx', g' := SolveCounted(y, dydx, s.size, s.xs, s.ys, s.h, UserFunctionEvaluation, g,
                                  Rhs(g.problem), Evaluated, Selected(g.problem));
    nFE := g'.count;
  }

  // ---------------------------------------------------------------- the two sample problems

  /** Problem 1 (`y' = -2y`): each step multiplies by the amplification factor of `-2h`. */
  lemma Problem1Step(x: real, y: real, h: real)
    ensures RK4Step(Rhs(1), x, y, h) == y * Amplification(-2.0 * h)
  {
    LinearStep(Rhs(1), -2.0, x, y, h);
  }

  /** An unknown problem number makes the equation `y' = y`: each step multiplies by the factor of `h`. */
  lemma UnknownProblemStep(problem: int, x: real, y: real, h: real)
    requires problem != 1 && problem != 2
    ensures RK4Step(Rhs(problem), x, y, h) == y * Amplification(1.0 * h)
  {
    LinearStep(Rhs(problem), 1.0, x, y, h);
  }

  /** An antiderivative of problem 2's right-hand side `x^2 - 5x + 10`. */
  function Antiderivative(x: real): real {
    x * x * x / 3.0 - 5.0 * x * x / 2.0 + 10.0 * x
  }

  /** Simpson's rule integrates the quadratic right-hand side of problem 2 exactly. */
  lemma SimpsonExact(x: real, h: real)
    ensures h / 6.0 * (RightHandSide(2, x, 0.0) + 4.0 * RightHandSide(2, x + 0.5 * h, 0.0) + RightHandSide(2, x + h, 0.0))
            == Antiderivative(x + h) - Antiderivative(x)
  {
  }

  /** Problem 2: one step adds exactly the integral of the right-hand side over the step. */
  lemma Problem2Step(x: real, y: real, h: real)
    ensures RK4Step(Rhs(2), x, y, h) == y + Antiderivative(x + h) - Antiderivative(x)
  {
    StepIsSimpson(Rhs(2), (s: real) => RightHandSide(2, s, 0.0), x, y, h);
    SimpsonExact(x, h);
  }

  /**
   Problem 2: every point the recurrence produces lies on the exact
   solution through `(xs, ys)`.
   */
  lemma {:induction false} Problem2Points(xs: real, ys: real, h: real, i: nat)
    requires i >= 1
    ensures Point(Rhs(2), xs, ys, h, i) == ys + Antiderivative(GridX(xs, h, i)) - Antiderivative(xs)
  {
    if i > 1 {
      Problem2Points(xs, ys, h, i - 1);
      Problem2Step(GridX(xs, h, i - 1), Point(Rhs(2), xs, ys, h, i - 1), h);
      GridStep(xs, h, i - 1);
    }
  }
}

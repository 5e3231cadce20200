# Numerical computing samples, modelled in Dafny

This project models three small numerical programs. It proves what each one computes.

- **Pair-force benchmark** (`forces_prep.cpp`). Particles sit on a line. Every unordered pair `i < j` is visited once. A pair closer than one half pushes `+1` onto particle `i` and `-1` onto particle `j`.
  - `PairForces.ComputeForce` is the serial loop.
  - `PairForces.ComputeForceReduction` is the manual reduction. It is run one thread after another: each thread fills a private partial array over the rows it owns, then adds the array into the particles.
  - Both give the closed-form force `PairCountForce`. `check` sums the forces and `checkAbs` sums their absolute values.
- **Discrete particle method solver** (`DPM.h`). Spheres move among flat walls. One time step has four phases:
  - reset each force to `gravity * m`;
  - add the spring-dashpot force of every wall the particle reaches;
  - add the spring-dashpot force of every touching pair, equal and opposite on the two particles;
  - take one explicit Euler step (position first, with the old velocity).

  The time loop advances the clock by `dt` per step. Every `saveCount` steps it appends a save to the `data` file: a header line, then one line per particle.
- **Runge-Kutta ODE solver** (`RK4OM.cpp`, `ODESolver.cpp`). `Rk4.Solve` is the classical fourth-order driver. The solver object picks one of two sample right-hand sides by problem number. A class-wide counter records how many times the user function was evaluated.

Modelling choices:

- Doubles are modelled as exact reals and integers as unbounded integers. The benchmark's forces are always whole counts, so they are `int`.
- Square root is a parameter `sqrt: real -> real`.
- The solver divides by the distance between two touching centres. A state where two touching centres coincide, or a mass is zero, is therefore outside what the source defines. The model's time loop checks for such a state before each step and stops there with a `Degenerate` outcome.
- The loop `while (t < tMax)` becomes a number of steps. Over exact reals, the clock after `n` steps is `n * dt` (`DemSolver.ClockIsProduct`).
- The `data` file is modelled as a sequence of lines, each line the sequence of numbers on it. It is proved to read back into the saves it was written from, and every file that reads back is exactly the encoding of what it reads back to.
- The user function of the ODE driver may update state the driver cannot see: in the solver, the class-wide evaluation counter. The driver takes it as a function from a state and `(x, y)` to a new state and `f(x, y)`, and passes the state through every call in the order the C++ makes them. `OdeSolver` hands it `UserFunctionEvaluation` on a `Globals` value, so `nFE` is the counter those calls produce.

Points where the code's behaviour is easy to misread:

- `DPM.h:17` describes a wall's normal as pointing into the wall. The model uses the formulas of lines 48-53 as written: the distance `(P0 - r) * n`, the overlap `a - distance`, and the force `-n * normalForce`.
- `saveCount` is unsigned and the counter is incremented before it is compared. So `saveCount == 0` saves after every step, exactly like `1` (`DemSolver.Period`).
- In `RK4OM.cpp` the derivative stored for point `i` is evaluated at `xt`, which is the previous abscissa plus `h`. It is not evaluated at the freshly updated `x`. Over the reals the two agree, and the model states the derivative at `x + h`.
- The constructor of `CODESolver` sets the problem number but does not reset the evaluation counter. So `nFE` counts every evaluation since the program started, not only those of the last run.

## Model

| member | source | states |
|---|---|---|
| PairForces.PairCountForce | OpenMPBenchmarksForSchedulingForceCalculations/forces_prep.cpp:50-58 | the force of particle `k` lies between `-k` and `n - 1 - k`: it gains at most one per partner above and loses at most one per partner below |
| PairForces.CountClose | OpenMPBenchmarksForSchedulingForceCalculations/forces_prep.cpp:51-53 | the number of close partners in an index range never exceeds the length of the range |
| PairForces.RowsEffectClosedForm | OpenMPBenchmarksForSchedulingForceCalculations/forces_prep.cpp:50-58 | after rows `0 .. rows-1`, particle `k` holds its close partners above it (if its own row is done) minus its close partners below it among the finished rows |
| PairForces.AllRowsGivePairCountForce | OpenMPBenchmarksForSchedulingForceCalculations/forces_prep.cpp:50-58 | once every row is done, each particle holds exactly the pair-count force |
| PairForces.VisitPair | OpenMPBenchmarksForSchedulingForceCalculations/forces_prep.cpp:52-56 | visiting pair `(i, j)` extends the row's effect by that one partner and leaves the force sum unchanged |
| PairForces.AccumulateRow | OpenMPBenchmarksForSchedulingForceCalculations/forces_prep.cpp:51-57 | one row of the double loop turns "rows `< i` done" into "rows `<= i` done", keeps positions and keeps the sum of forces |
| PairForces.ResetForces | OpenMPBenchmarksForSchedulingForceCalculations/forces_prep.cpp:47-49 | every force becomes zero and every position is kept |
| PairForces.ComputeForce | OpenMPBenchmarksForSchedulingForceCalculations/forces_prep.cpp:46-59 | whatever forces were there before, each force becomes the pair count, is bounded by the particle count, the forces sum to zero, and positions are kept |
| PairForces.PartialForces | OpenMPBenchmarksForSchedulingForceCalculations/forces_prep.cpp:103-114 | a thread's private array holds exactly the effect of the rows that thread owns |
| PairForces.OwnedEffectSplit | OpenMPBenchmarksForSchedulingForceCalculations/forces_prep.cpp:116-121 | the rows owned by two adjacent ranges of threads add up to the rows owned by their union |
| PairForces.OwnedEffectEmpty | OpenMPBenchmarksForSchedulingForceCalculations/forces_prep.cpp:97-99 | before any thread has merged, the merged effect is zero |
| PairForces.OwnedEffectCoversAll | OpenMPBenchmarksForSchedulingForceCalculations/forces_prep.cpp:105-106 | when every row is owned by some thread, the threads together do exactly all rows |
| PairForces.ComputeForceReduction | OpenMPBenchmarksForSchedulingForceCalculations/forces_prep.cpp:96-124 | for any assignment of rows to threads, merging the partial arrays thread by thread gives exactly the serial forces and keeps positions |
| PairForces.CheckAbs | OpenMPBenchmarksForSchedulingForceCalculations/forces_prep.cpp:134-140 | the sum of absolute forces is at least the absolute value of the plain sum |
| PairForces.Check | OpenMPBenchmarksForSchedulingForceCalculations/forces_prep.cpp:126-132 | definition: the sum of all forces |
| PairForces.CheckUpdate | OpenMPBenchmarksForSchedulingForceCalculations/forces_prep.cpp:126-132 | adding `d` to one force adds `d` to `check` |
| PairForces.CheckOfZeroForces | OpenMPBenchmarksForSchedulingForceCalculations/forces_prep.cpp:126-132 | `check` of all-zero forces is zero |
| PairForces.CloseSymmetric | OpenMPBenchmarksForSchedulingForceCalculations/forces_prep.cpp:52-53 | the closeness test does not depend on the order of the pair |
| DemForces.ResetForces | ParticleSystemDEMSolver/CollisionOfTwoParticles/DPM.h:41-43 | every force becomes exactly `gravity * m`, whatever it held before; bodies are kept; the total force is the total weight |
| DemForces.TotalForceUpdate | ParticleSystemDEMSolver/CollisionOfTwoParticles/DPM.h:53 | adding a vector to one accumulator adds it to the total force |
| DemForces.WallContactNeedsOverlap | ParticleSystemDEMSolver/CollisionOfTwoParticles/DPM.h:48-54 | a wall the particle does not reach adds nothing; one it reaches adds `-(k*overlap + gam*vreln)` along the normal |
| DemForces.WallContactMonotone | ParticleSystemDEMSolver/CollisionOfTwoParticles/DPM.h:48-54 | with a unit normal and positive stiffness, a deeper overlap at the same velocity pushes strictly harder out of the wall |
| DemForces.WallContactAtTouching | ParticleSystemDEMSolver/CollisionOfTwoParticles/DPM.h:49-53 | a particle exactly touching a wall, with no normal velocity, feels no wall force |
| DemForces.WallContact | ParticleSystemDEMSolver/CollisionOfTwoParticles/DPM.h:48-54 | definition: the spring-dashpot force of one wall on one particle, zero when it does not reach the wall |
| DemForces.WallForce | ParticleSystemDEMSolver/CollisionOfTwoParticles/DPM.h:47-55 | definition: the forces of all walls on one particle, summed in wall order |
| DemForces.ApplyWall | ParticleSystemDEMSolver/CollisionOfTwoParticles/DPM.h:48-54 | one particle-wall visit adds exactly that wall's contact force |
| DemForces.WallExtends | ParticleSystemDEMSolver/CollisionOfTwoParticles/DPM.h:47 | visiting the next wall extends the accumulated wall force by that wall's contribution |
| DemForces.AddWallsToParticle | ParticleSystemDEMSolver/CollisionOfTwoParticles/DPM.h:47-55 | the inner loop adds the sum of all wall contacts, in wall order, to the particle's force |
| DemForces.AddWallForces | ParticleSystemDEMSolver/CollisionOfTwoParticles/DPM.h:46-55 | every particle gains exactly its wall force, bodies are kept, and the total force grows by the total wall force |
| DemForces.WallsTotal | ParticleSystemDEMSolver/CollisionOfTwoParticles/DPM.h:46-55 | per-particle wall increments add up to the total wall force |
| DemForces.WallForceIgnoresForce | ParticleSystemDEMSolver/CollisionOfTwoParticles/DPM.h:48-52 | the wall force depends only on radius, position and velocity, not on what the accumulator holds |
| DemContacts.PairLawNeedsContact | ParticleSystemDEMSolver/CollisionOfTwoParticles/DPM.h:60-61 | a pair that fails the squared-distance test exerts no force |
| DemContacts.InContact | ParticleSystemDEMSolver/CollisionOfTwoParticles/DPM.h:60-61 | definition: the contact test, the squared sum of the radii exceeds the squared distance between the centres |
| DemContacts.PairContact | ParticleSystemDEMSolver/CollisionOfTwoParticles/DPM.h:60-68 | definition: the spring-dashpot force on the first particle of a touching pair, along the unit normal from the second centre to the first |
| DemContacts.ContactAlong | ParticleSystemDEMSolver/CollisionOfTwoParticles/DPM.h:62-66 | definition: for centres `distance` apart, the overlap `a_p + a_q - distance`, the unit normal from the second centre to the first, the normal relative velocity, and the force `normal * (k * overlap + gam * vreln)` on the first particle |
| DemContacts.PairLaw | ParticleSystemDEMSolver/CollisionOfTwoParticles/DPM.h:60-68 | definition: the pair law as a function value, applied only where the division by the distance is defined |
| DemContacts.ContactForce | ParticleSystemDEMSolver/CollisionOfTwoParticles/DPM.h:58-70 | definition: what a particle receives as the first member of its pairs minus what it hands back as the second |
| DemContacts.DistanceSquaredSymmetric | ParticleSystemDEMSolver/CollisionOfTwoParticles/DPM.h:60 | the squared distance does not depend on the order of the pair |
| DemContacts.PairLawAntisymmetric | ParticleSystemDEMSolver/CollisionOfTwoParticles/DPM.h:62-68 | computed with the particles swapped, the law gives exactly the negated force, so the `i < j` loop gives `j` what the law assigns to it |
| DemContacts.PairContactAntisymmetric | ParticleSystemDEMSolver/CollisionOfTwoParticles/DPM.h:62-66 | for a touching pair, swapping the particles negates the normal and keeps the force magnitude |
| DemContacts.PairLawRepulsive | ParticleSystemDEMSolver/CollisionOfTwoParticles/DPM.h:61-67 | without damping, a touching pair pushes the first particle away from the second |
| DemContacts.HeadOnPair | ParticleSystemDEMSolver/CollisionOfTwoParticles/DPM.h:60-68 | two spheres of radius 0.5 whose centres are 0.9 apart touch, the first is pushed along `-x`, the second receives the opposite force |
| DemContacts.RowsClosedForm | ParticleSystemDEMSolver/CollisionOfTwoParticles/DPM.h:58-70 | after rows `0 .. rows-1`, particle `m` holds what it received from partners above (if its row is done) minus what it handed to the finished rows below |
| DemContacts.IsolatedParticleFeelsNoContact | ParticleSystemDEMSolver/CollisionOfTwoParticles/DPM.h:61 | a particle touching nobody receives no contact force |
| DemContacts.VisitPair | ParticleSystemDEMSolver/CollisionOfTwoParticles/DPM.h:60-69 | one pair visit adds the force to the first particle and its negation to the second, and keeps the total force |
| DemContacts.VisitExtendsRow | ParticleSystemDEMSolver/CollisionOfTwoParticles/DPM.h:67-68 | after visiting `(i, j)`, each particle's accumulated row effect covers partners up to `j` |
| DemContacts.RowExtends | ParticleSystemDEMSolver/CollisionOfTwoParticles/DPM.h:59 | the inner pair loop's state after partner `j` is its state before, extended by that partner |
| DemContacts.RowStarts | ParticleSystemDEMSolver/CollisionOfTwoParticles/DPM.h:59 | a row begins with no partner visited |
| DemContacts.RowKeepsBodies | ParticleSystemDEMSolver/CollisionOfTwoParticles/DPM.h:59-69 | during a row, radii, positions and velocities are those before the loop |
| DemContacts.RowFinishes | ParticleSystemDEMSolver/CollisionOfTwoParticles/DPM.h:59 | a row with every partner visited is a finished row |
| DemContacts.VisitInRow | ParticleSystemDEMSolver/CollisionOfTwoParticles/DPM.h:59-70 | one pass of the inner pair loop moves the row on by one partner and keeps the total force |
| DemContacts.AccumulateRow | ParticleSystemDEMSolver/CollisionOfTwoParticles/DPM.h:59-70 | the inner pair loop turns "rows `< i` done" into "rows `<= i` done" and keeps the total force |
| DemContacts.NoRowsDone | ParticleSystemDEMSolver/CollisionOfTwoParticles/DPM.h:58 | before the outer loop, no row is done |
| DemContacts.AllRowsDone | ParticleSystemDEMSolver/CollisionOfTwoParticles/DPM.h:58-70 | after every row, each particle has gained exactly its contact force and bodies are kept |
| DemContacts.AddPairForces | ParticleSystemDEMSolver/CollisionOfTwoParticles/DPM.h:58-70 | every particle gains exactly its contact force, bodies are kept, and the total force is unchanged (equal and opposite pair forces) |
| DemIntegrator.Integrate | ParticleSystemDEMSolver/CollisionOfTwoParticles/DPM.h:73-76 | position advances with the old velocity, velocity with `f * (dt/m)`, nothing else changes, and momentum grows by total force times `dt` |
| DemIntegrator.Advanced | ParticleSystemDEMSolver/CollisionOfTwoParticles/DPM.h:73-76 | definition: one particle's explicit Euler update, position first with the old velocity |
| DemIntegrator.MomentumAfterUpdate | ParticleSystemDEMSolver/CollisionOfTwoParticles/DPM.h:73-76 | the Euler update changes total momentum by exactly total force times `dt` |
| DemIntegrator.AdvancedMomentum | ParticleSystemDEMSolver/CollisionOfTwoParticles/DPM.h:75 | one particle's momentum grows by its force times `dt` |
| DemIntegrator.MomentumIgnoresForce | ParticleSystemDEMSolver/CollisionOfTwoParticles/DPM.h:41-70 | the force phases, which touch only accumulators, leave momentum unchanged |
| DemStep.Step | ParticleSystemDEMSolver/CollisionOfTwoParticles/DPM.h:41-76 | one step: each force is gravity plus walls plus contacts of the pre-step state, the Euler update follows, radii and masses are kept, and momentum changes only by gravity and wall forces times `dt` |
| DemStep.NetForce | ParticleSystemDEMSolver/CollisionOfTwoParticles/DPM.h:41-70 | definition: gravity times mass plus the wall force plus the contact force |
| DemStep.StepState | ParticleSystemDEMSolver/CollisionOfTwoParticles/DPM.h:41-76 | definition: the state after one time step |
| DemStep.PhasesGiveNetForce | ParticleSystemDEMSolver/CollisionOfTwoParticles/DPM.h:41-70 | after the three force phases each accumulator holds the net force of the pre-step state |
| DemStep.ContactForceBodiesOnly | ParticleSystemDEMSolver/CollisionOfTwoParticles/DPM.h:60-66 | contact forces depend only on radii, positions and velocities, so the earlier phases do not disturb them |
| DemStep.WallTotalIgnoresForce | ParticleSystemDEMSolver/CollisionOfTwoParticles/DPM.h:46-55 | the total wall force depends only on the bodies |
| DemStep.StepIsStepState | ParticleSystemDEMSolver/CollisionOfTwoParticles/DPM.h:41-76 | the particles after the force phases and the integration are the one-step state: radius and mass kept, `f` is the net force, `r += v * dt` with the old velocity, and `v += f * (dt / m)` |
| DemStep.FreeFall | ParticleSystemDEMSolver/CollisionOfTwoParticles/DPM.h:41-76 | a lone particle with no walls feels only gravity and its velocity grows by `gravity * dt` |
| DemSolver.ClockIsProduct | ParticleSystemDEMSolver/CollisionOfTwoParticles/DPM.h:78 | over exact arithmetic, `dt` added `n` times is `n * dt` |
| DemSolver.Run | ParticleSystemDEMSolver/CollisionOfTwoParticles/DPM.h:39-78 | definition: the state after `n` steps, or nothing when some state on the way cannot be stepped |
| DemSolver.Clock | ParticleSystemDEMSolver/CollisionOfTwoParticles/DPM.h:78 | definition: the time after `n` additions of `dt` |
| DemSolver.CounterStep | ParticleSystemDEMSolver/CollisionOfTwoParticles/DPM.h:80-82 | the incremented counter reaches `saveCount` exactly when the next step count is a multiple of the period, and then the save count goes up by one |
| DemSolver.SavesExtend | ParticleSystemDEMSolver/CollisionOfTwoParticles/DPM.h:85-89 | appending the save after step `(j+1) * p` keeps "the j-th save is the state after `(j+1) * p` steps" |
| DemSolver.Record | ParticleSystemDEMSolver/CollisionOfTwoParticles/DPM.h:80-90 | the counter becomes `(n + 1) mod P`; the file grows by the save of the current state exactly when `n + 1` is a multiple of the period `P`, and is unchanged otherwise |
| DemSolver.Tick | ParticleSystemDEMSolver/CollisionOfTwoParticles/DPM.h:39-91 | one pass of the time loop from a steppable state takes exactly one step, adds `dt` to the clock, moves the counter on, and keeps the loop's progress invariant |
| DemSolver.Solve | ParticleSystemDEMSolver/CollisionOfTwoParticles/DPM.h:34-94 | the loop completes exactly when every state on the way is steppable, otherwise stops at the first one that is not; the final state, clock and counter are the run's; the file reads back to one save per period |
| DemSolver.Concluded | ParticleSystemDEMSolver/CollisionOfTwoParticles/DPM.h:85-89 | the loop's progress means the file decodes to exactly the saves written |
| DemSolver.RunStopsAt | ParticleSystemDEMSolver/CollisionOfTwoParticles/DPM.h:39-76 | a run that cannot take step `n` reaches no later step |
| DemSnapshot.Views | ParticleSystemDEMSolver/CollisionOfTwoParticles/DPM.h:86-89 | a save records every particle, in particle order |
| DemSnapshot.HeaderLine | ParticleSystemDEMSolver/CollisionOfTwoParticles/DPM.h:85 | definition: the header line of a save, the particle count, the time and the fixed domain numbers |
| DemSnapshot.ParticleLine | ParticleSystemDEMSolver/CollisionOfTwoParticles/DPM.h:88 | definition: a particle's line, its position, velocity, radius and seven zeros |
| DemSnapshot.EncodeFrame | ParticleSystemDEMSolver/CollisionOfTwoParticles/DPM.h:85-89 | definition: the lines of one save, the header followed by one line per particle in particle order |
| DemSnapshot.EncodeFile | ParticleSystemDEMSolver/CollisionOfTwoParticles/DPM.h:85-89 | definition: the lines of a list of saves, each a header followed by its particle lines |
| DemSnapshot.DecodeFile | ParticleSystemDEMSolver/CollisionOfTwoParticles/DPM.h:85-89 | definition: reading a file back into saves, or nothing when it is malformed |
| DemSnapshot.ParticleLineRoundTrip | ParticleSystemDEMSolver/CollisionOfTwoParticles/DPM.h:88 | a particle line reads back to position, velocity and radius |
| DemSnapshot.ParticleLinesRoundTrip | ParticleSystemDEMSolver/CollisionOfTwoParticles/DPM.h:86-89 | the particle lines of a save read back to its particles, one line each |
| DemSnapshot.HeaderRoundTrip | ParticleSystemDEMSolver/CollisionOfTwoParticles/DPM.h:85 | a header line reads back to the particle count |
| DemSnapshot.HeaderInverse | ParticleSystemDEMSolver/CollisionOfTwoParticles/DPM.h:85 | a line read as a header is exactly the header of its count and time |
| DemSnapshot.EncodeDecodeFile | ParticleSystemDEMSolver/CollisionOfTwoParticles/DPM.h:85-89 | any list of saves reads back exactly from the file it produces |
| DemSnapshot.DecodeParticlesInverse | ParticleSystemDEMSolver/CollisionOfTwoParticles/DPM.h:86-89 | lines that read back as particles are exactly those particles' lines |
| DemSnapshot.DecodeEncodeFile | ParticleSystemDEMSolver/CollisionOfTwoParticles/DPM.h:85-89 | every file that reads back is exactly the encoding of the saves it reads back to |
| DemSnapshot.EncodeFileAppend | ParticleSystemDEMSolver/CollisionOfTwoParticles/DPM.h:85-89 | writing one more save appends its lines to the file |
| Rk4.GridStep | ODESolver/ODERungeKutta4thOrderSolver/RK4OM.cpp:63 | one step of `h` from grid point `i` lands on grid point `i + 1` |
| Rk4.Solve | ODESolver/ODERungeKutta4thOrderSolver/RK4OM.cpp:14-71 | point 1 is the initial value with one evaluation for its derivative; each later point up to `n` is one recurrence step from the previous one with a fifth evaluation for its derivative; the user function's state is passed through every call and ends as `Run` leaves it; nothing else is touched; the result is success |
| Rk4.FillPoint | ODESolver/ODERungeKutta4thOrderSolver/RK4OM.cpp:30-68 | one pass of the loop writes point `i` and its derivative and moves `x` to point `i`'s abscissa |
| Rk4.FillingStep | ODESolver/ODERungeKutta4thOrderSolver/RK4OM.cpp:59-67 | storing the new point and derivative extends what the loop knows by point `i` |
| Rk4.Advance | ODESolver/ODERungeKutta4thOrderSolver/RK4OM.cpp:33-66 | the four evaluations of a step, in order and threading the user function's state, give the next value, and a fifth evaluation at `x + h` gives its derivative and the final state |
| Rk4.StepWith | ODESolver/ODERungeKutta4thOrderSolver/RK4OM.cpp:33-56 | definition: the four stage evaluations of one step, threading the user function's state, and the weighted average of their slopes |
| Rk4.Run | ODESolver/ODERungeKutta4thOrderSolver/RK4OM.cpp:21-68 | definition: point `i` as the driver writes it, with its derivative and the user function's state after its evaluations |
| Rk4.StepWithCounting | ODESolver/ODERungeKutta4thOrderSolver/RK4OM.cpp:33-56 | with a user function that only counts, one step makes four calls and computes the pure recurrence step |
| Rk4.RunCounting | ODESolver/ODERungeKutta4thOrderSolver/RK4OM.cpp:21-68 | with a user function that only counts, point `i` is the pure recurrence's, its derivative is `f` at the previous abscissa plus `h`, and the count has grown by `1 + 5 * (i - 1)` |
| Rk4.WrittenCounting | ODESolver/ODERungeKutta4thOrderSolver/RK4OM.cpp:59-67 | the stored points and derivatives of a counting user function read as the pure recurrence and its right-hand side |
| Rk4.SolveCounted | ODESolver/ODERungeKutta4thOrderSolver/RK4OM.cpp:14-71 | the driver run with a counting user function writes the pure recurrence and its derivatives, leaves the rest untouched, and raises the count by `1 + 5 * (n - 1)` |
| Rk4.RK4Step | ODESolver/ODERungeKutta4thOrderSolver/RK4OM.cpp:33-56 | definition: the classical recurrence step for a pure right-hand side |
| Rk4.Point | ODESolver/ODERungeKutta4thOrderSolver/RK4OM.cpp:24-63 | definition: the value of point `i` under the recurrence from `(xs, ys)` |
| Rk4.StepFromStages | ODESolver/ODERungeKutta4thOrderSolver/RK4OM.cpp:33-56 | the step is the weighted average of the four stage slopes at `x`, twice at `x + h/2`, and at `x + h` |
| Rk4.StepIsSimpson | ODESolver/ODERungeKutta4thOrderSolver/RK4OM.cpp:33-56 | for a right-hand side that ignores `y`, a step is Simpson's rule over `[x, x + h]` |
| Rk4.LinearStep | ODESolver/ODERungeKutta4thOrderSolver/RK4OM.cpp:33-56 | for `y' = lambda * y`, a step multiplies `y` by the fourth-order Taylor polynomial of `exp(lambda * h)` |
| Rk4.LinearStages | ODESolver/ODERungeKutta4thOrderSolver/RK4OM.cpp:33-56 | the stage slopes of the linear equation combine into `y` times the amplification factor |
| OdeSolver.Construct | ODESolver/ODERungeKutta4thOrderSolver/ODESolver.cpp:12-22 | the object holds the given data, the selected problem becomes `PNUM`, and the evaluation counter is not reset |
| OdeSolver.UserFunctionEvaluation | ODESolver/ODERungeKutta4thOrderSolver/ODESolver.cpp:38-63 | each evaluation counts once; problem 1 gives `-2y`, problem 2 gives `x^2 - 5x + 10`, any other problem leaves `y` unchanged |
| OdeSolver.GoCompute | ODESolver/ODERungeKutta4thOrderSolver/ODESolver.cpp:28-36 | the driver is run with `UserFunctionEvaluation`; the counter its calls produce grows by `1 + 5 * (n - 1)` and is reported as `nFE` (`5n - 4` from a fresh start); points and derivatives follow the recurrence for the selected problem |
| OdeSolver.UserFunctionCounts | ODESolver/ODERungeKutta4thOrderSolver/ODESolver.cpp:53-62 | while a problem stays selected, each call of `UserFunctionEvaluation` keeps the selection, raises the counter by one and returns that problem's pure right-hand side, whatever the counter held |
| OdeSolver.RightHandSide | ODESolver/ODERungeKutta4thOrderSolver/ODESolver.cpp:55-62 | definition: `-2y` for problem 1, `x^2 - 5x + 10` for problem 2, `y` unchanged otherwise |
| OdeSolver.Problem1Step | ODESolver/ODERungeKutta4thOrderSolver/ODESolver.cpp:55-58 | for problem 1 each step multiplies `y` by the amplification factor of `-2h` |
| OdeSolver.UnknownProblemStep | ODESolver/ODERungeKutta4thOrderSolver/ODESolver.cpp:55-62 | for an unknown problem number the equation is `y' = y`, and each step multiplies by the factor of `h` |
| OdeSolver.SimpsonExact | ODESolver/ODERungeKutta4thOrderSolver/ODESolver.cpp:59-62 | Simpson's rule integrates problem 2's quadratic right-hand side exactly |
| OdeSolver.Problem2Step | ODESolver/ODERungeKutta4thOrderSolver/ODESolver.cpp:59-62 | for problem 2 one step adds exactly the integral of the right-hand side over the step |
| OdeSolver.Problem2Points | ODESolver/ODERungeKutta4thOrderSolver/ODESolver.cpp:59-62 | for problem 2 every point the driver produces lies on the exact solution through the initial point |

## Left out

- The atomic and shared variants of the pair-force benchmark, and OpenMP itself. The reduction is run sequentially, one thread after another, with an arbitrary assignment of rows to threads. The merge order of the critical sections does not matter, because integer addition commutes.
- The benchmark's random positions, timing and console output, and both `main` programs: they are I/O and clocks.
- `getNumberOfThreads`: it only prints.
- IEEE-754 rounding, infinities and NaN: all arithmetic is exact. Where the solver would divide by a zero distance or mass, the model stops with a `Degenerate` outcome.
- The `tMax` comparison on floating-point time: the loop runs a given number of steps instead.
- Text formatting of the `data` file (number precision, separators) and the `std::cout` time line: lines are modelled as sequences of numbers.
- Opening and closing the output file: file I/O is not modelled.
- `Vec3D.h` is not part of this model: `Vec3s` gives the operations the solver uses, over reals.
- The vector classes `CVector` and `CArrayBase`, and allocation statistics: the output vectors are sequences, with entry `i` at index `i - 1`.
- The default `saveCount = 10` of `DPM.h:28`: `Params.saveCount` has no default, so every run states its period.
- `CODESolver`'s end abscissa `xe`: it is stored but never used by the computation.
- Rk4.Solve: does not model indexing past the end of the output vectors. `CVector` is not part of this model, so `n` is required to fit both vectors. `main.cpp` sizes both vectors to the number of points it passes as `n`, which meets this.

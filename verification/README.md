# nsim core in Dafny

A model of the computational core of nsim, an N-body gravity simulator
written in C++, and proofs about it. The model covers:

- the vector algebra and the epsilon comparison;
- Newtonian gravity: the per-body acceleration sum, which skips the body itself and reports a crash below a distance of 0.1, and the pass that stores every body's acceleration;
- the integrators: explicit Euler, the code's leapfrog variant, fourth-order Runge-Kutta with its recording mode, and the Adams-Bashforth and Adams-Bashforth-Moulton methods of orders 4 and 8, with their coefficient tables and their rolling history;
- the `computeStep` template method, `reset`, `getType`, the type and name tables and the factory;
- the simulation clock;
- the simulation history that keeps saved states for the animation;
- the unit conversion of the project loader;
- the ring buffer of an orbit trail.

Every `physics::DOUBLE` (a `long double`) and every `GLfloat` is a Dafny `real`. Every exception is a value of `Outcomes.Error`, carried by `Result`, `Outcome` or a run record that also holds the state the operation left behind.

## Layout

- `outcomes.dfy`: errors, `Result`, `Outcome`, `Option`.
- `precision.dfy`, `vectors.dfy`: `equal`, `Vector` as a value and `VectorObject` for the compound operators that change a vector in place.
- `universe.dfy`: a body and the universe, a sequence of bodies.
- `forces.dfy`: both `computeAcceleration` overloads.
- `sweep.dfy`: the loop shared by the integrators that evaluate forces while they advance. Bodies are updated in place one after another, so a force evaluation for body `i` sees the bodies before `i` already advanced.
- `euler.dfy`, `leapfrog.dfy`, `rk4.dfy`, `adams_bashforth.dfy`, `abm.dfy`: one scheme each. A step is a method over an `array<Body>` that is proved equal to a function over `seq<Body>`; the lemmas are about that function.
- `adams_constants.dfy`, `adams_sums.dfy`: the coefficient tables and the weighted sums of the Adams methods.
- `base.dfy`: the integrator object, whose C++ subclasses become one class with a constant `scheme` tag. It also holds `computeStep`, the multistep start-up, `reset`, `getType` and the factory.
- `algorithm_types.dfy`: the `Type` enum and its name tables.
- `simulation_time.dfy`, `simulation_history.dfy`, `orbit.dfy`, `units.dfy`: the clock, the history, the orbit ring and `convertUnits`.

Where the leapfrog code differs from the textbook formula, the model follows the code. The textbook velocity Verlet step weighs the cached acceleration by `dt * dt / 2`; `leapfrog.cpp` weighs it by `dt / 2`, and so does `LeapfrogScheme.Moved`.

## Model

| member | source | states |
|---|---|---|
| Precision.Abs | src/physics/precision.h:45 | the absolute value is non-negative and equals the argument or its negation |
| Precision.Equal | src/physics/precision.h:43-46 | `equal`: the closed EPSILON interval of `EqualIsInterval`; reflexive and symmetric but not transitive (`EqualReflexive`, `EqualSymmetric`, `EqualNotTransitive`) |
| Precision.EqualIsInterval | src/physics/precision.h:36-46 | `equal(a, b)` holds exactly when `b` lies within EPSILON (1e-8) of `a`, both ends included |
| Precision.EqualReflexive | src/physics/precision.h:43-46 | every number is `equal` to itself |
| Precision.EqualSymmetric | src/physics/precision.h:43-46 | `equal(a, b)` exactly when `equal(b, a)` |
| Precision.EqualNotTransitive | src/physics/precision.h:43-46 | `equal` is not transitive: 0 and EPSILON, and EPSILON and 2 EPSILON, are equal, but 0 and 2 EPSILON are not |
| Vectors.Index | src/physics/vector.h:89-95 | read access succeeds exactly for indices 0, 1 and 2, giving x, y and z; any other index is IndexOutOfRange |
| Vectors.Eq | src/physics/vector.h:117-121 | `operator==`: `equal` on each component; reflexive and symmetric (`EqReflexive`, `EqSymmetric`) |
| Vectors.Neq | src/physics/vector.h:124-126 | `operator!=`: the negation of `==` (`EqReflexive`) |
| Vectors.Add | src/physics/vector.h:157-167 | binary `+`: the componentwise sum; commutative and undone by `-` (`AddCommutes`, `SubUndoesAdd`) |
| Vectors.AddScalar | src/physics/vector.h:141-146 | adding a scalar: every component shifted by `s`; undone by `SubScalar` (`SubScalarUndoesAddScalar`) |
| Vectors.Sub | src/physics/vector.h:183-189 | binary `-`: the componentwise difference; the inverse of `Add` (`SubUndoesAdd`) |
| Vectors.SubScalar | src/physics/vector.h:169-174 | subtracting a scalar: every component shifted by `-s` (`SubScalarUndoesAddScalar`) |
| Vectors.Scale | src/physics/vector.h:215-221 | `v * s` and `s * v`: every component scaled; 0 gives the zero vector and 1 the vector (`ScaleByZeroAndOne`); the inverse of `Div` (`Div`) |
| Vectors.Quot | src/physics/vector.h:202-204 | `v / s` for a divisor known to be non-zero, as in the unit conversion's divisions by 1000, ASTRON_UNITS and the day; it is the quotient `Div` returns, which times the divisor gives the vector back (`Div`) |
| Vectors.Dot | src/physics/vector.h:233-237 | `dotproduct`: symmetric, non-negative on a vector with itself (`DotSymmetric`, `DotNonNegative`, `DotExample`) |
| Vectors.Magnitude | src/physics/vector.h:226-230 | `abs`: the square root of the dot product with itself; its laws are `MagnitudeLaws` and `MagnitudeBelow` |
| Vectors.SetIndex | src/physics/vector.h:98-104 | write access succeeds exactly for indices 0 to 2; the written component reads back the new value and the other two are unchanged; any other index is IndexOutOfRange |
| Vectors.Div | src/physics/vector.h:193-204 | division fails with DivideByZero exactly for a zero divisor; otherwise the quotient times the divisor is the vector |
| Vectors.MagnitudeLaws | src/physics/vector.h:224-230 | given the laws of the square root, `abs` is non-negative and its square is the dot product of the vector with itself |
| Vectors.MagnitudeBelow | src/physics/vector.h:224-230 | given the laws of the square root, a magnitude below a positive bound is a squared magnitude below the bound squared |
| Vectors.VectorObject.constructor | src/physics/vector.h:50-53 | a new vector holds the given components |
| Vectors.VectorObject.Set | src/physics/vector.h:59-71 | after `set` the vector holds exactly the given components |
| Vectors.VectorObject.SetAt | src/physics/vector.h:98-104 | a write succeeds exactly for indices 0 to 2 and then holds `SetIndex` of the old value; a failed write leaves the vector as it was |
| Vectors.VectorObject.AddAssign | src/physics/vector.h:150-155 | `v += w` leaves `v` holding the componentwise sum |
| Vectors.VectorObject.AddScalarAssign | src/physics/vector.h:141-146 | `v += s` shifts every component by `s` |
| Vectors.VectorObject.SubAssign | src/physics/vector.h:176-181 | `v -= w` leaves `v` holding the componentwise difference |
| Vectors.VectorObject.SubScalarAssign | src/physics/vector.h:169-174 | `v -= s` shifts every component by `-s` |
| Vectors.VectorObject.MulAssign | src/physics/vector.h:208-213 | `v *= s` scales every component |
| Vectors.VectorObject.DivAssign | src/physics/vector.h:193-200 | `v /= s` fails exactly for `s == 0`, leaving the vector as it was; otherwise it holds the quotient |
| Vectors.EqReflexive | src/physics/vector.h:117-126 | `v == v` holds and `v != v` does not |
| Vectors.EqSymmetric | src/physics/vector.h:117-121 | `v == w` exactly when `w == v` |
| Vectors.AddCommutes | src/physics/vector.h:165-167 | `v + w == w + v`, although the operator adds its left operand to a copy of its right one |
| Vectors.SubUndoesAdd | src/physics/vector.h:150-189 | subtracting `w` undoes adding `w`, and the other way round |
| Vectors.SubScalarUndoesAddScalar | src/physics/vector.h:141-174 | subtracting a scalar undoes adding it |
| Vectors.ScaleByZeroAndOne | src/physics/vector.h:208-221 | `v * 0` is the zero vector and `v * 1` is `v` |
| Vectors.DivByOne | src/physics/vector.h:193-204 | dividing by 1 succeeds and gives the vector back |
| Vectors.DotExample | src/physics/vector.h:233-237 | (1, 2, 3) · (4, -5, 6) is 12 |
| Vectors.DotSymmetric | src/physics/vector.h:233-237 | the dot product is symmetric |
| SimulationTimes.SimulationTime.constructor | src/physics/simulationtime.h:32-45 | a new clock reads 0, its step is DEFAULT_STEP (3600 s) and its counter is 0 |
| SimulationTimes.SimulationTime.UpdateTime | src/physics/simulationtime.h:53-57 | the 32-bit counter goes up by one, with wrap-around; `t` is `step * counter`; without wrap-around the clock reads `initTime + step * (old counter + 1)` and, with a non-negative step, never goes backwards |
| SimulationTimes.SimulationTime.SetTime | src/physics/simulationtime.h:61-65 | the clock reads the given time, with `t` and the counter back at 0 and the step kept |
| SimulationTimes.SimulationTime.SetTimeStep | src/physics/simulationtime.h:73-75 | only the step changes; the clock's reading stays as it was until the next update |
| SimulationTimes.SimulationTime.Time | src/physics/simulationtime.h:48-50 | `time()`: `initTime + t`; how it moves is stated by `UpdateTime`, `SetTime` and `AdvanceClock` |
| SimulationTimes.SimulationTime.TimeStep | src/physics/simulationtime.h:68-70 | `timeStep()`: the step; `SetTimeStep` sets it and nothing else |
| SimulationTimes.AdvanceClock | src/physics/simulationtime.h:53-65 | after `setTime(T)` and `n` updates the clock reads `T + step * n` |
| AlgorithmTypes.Code | src/algorithms/types.h:40-48 | every enumerator's value is below 7 |
| AlgorithmTypes.FromCode | src/algorithms/types.h:40-48 | a value names an enumerator exactly when it lies in 0 to 6, and that enumerator has this value |
| AlgorithmTypes.CodeRoundTrip | src/algorithms/types.h:40-48 | every enumerator is found again from its value |
| AlgorithmTypes.CodeInjective | src/algorithms/types.h:40-48 | two enumerators with the same value are the same |
| AlgorithmTypes.TypeName | src/algorithms/types.h:58-66 | `typeName` has one entry per enumerator and a scheme's name is the entry at its value |
| AlgorithmTypes.ShortTypeName | src/algorithms/types.h:74-82 | `shortTypeName` has one entry per enumerator and a scheme's short name is the entry at its value |
| AlgorithmTypes.ParseShortName | src/arguments.cpp:95-101 | a scheme found for a name has that short name; when none is found, no scheme has it |
| AlgorithmTypes.ParseFrom | src/arguments.cpp:95-101 | the lookup from table position `i` on finds a scheme with the name, or no scheme at or after `i` has it |
| AlgorithmTypes.ShortNameRoundTrip | src/arguments.cpp:95-101 | the short names are pairwise distinct, so the argument parser's lookup of a scheme's short name gives that scheme |
| AdamsConstantsTables.OrderFourSums | src/algorithms/constants.cpp:43-44 | the order-4 Bashforth and Moulton coefficients each add up to 24 |
| AdamsConstantsTables.OrderEightSums | src/algorithms/constants.cpp:34-39 | the order-8 Bashforth and Moulton coefficients each add up to 120960 |
| AdamsConstantsTables.TableSums | src/algorithms/constants.cpp:34-45 | for both orders and both tables, the coefficients times the divisor add up to 1 |
| AdamsConstantsTables.Make | src/algorithms/constants.cpp:48-62 | the constructor accepts order 4 or 8 and selects that order's tables and divisor, whose sums times the divisor are 1 |
| AdamsConstantsTables.ValidSums | src/algorithms/constants.cpp:34-62 | every constructed object has tables of `order` entries whose sums times the divisor are 1 |
| AdamsConstantsTables.Bashforth | src/algorithms/constants.cpp:64-70 | `bashforth(i)` fails exactly when `i >= order` and otherwise is entry `i` of that order's table |
| AdamsConstantsTables.Moulton | src/algorithms/constants.cpp:72-78 | `moulton(i)` fails exactly when `i >= order` and otherwise is entry `i` of that order's table |
| AdamsConstantsTables.Divisor | src/algorithms/constants.cpp:80-84 | the divisor is 1/24 for order 4 and 1/120960 for order 8 |
| AdamsConstantsTables.OrderFourTables | src/algorithms/constants.cpp:43-61 | the order-4 object gives 55 and -9 at the ends of the Bashforth table, 9 and 19 first in the Moulton table, fails at index 4, and has divisor 1/24 |
| AdamsSums.Shifted | src/algorithms/adams-bashforth.cpp:83-85 | `push_back` then `pop_front` on a non-empty history keeps its length, makes the pushed frame the newest and drops the oldest |
| AdamsSums.Column | src/algorithms/adams-bashforth.cpp:74-75 | body `i`'s items through the history, oldest first |
| AdamsSums.ShiftedWeights | src/algorithms/adams-bashforth.cpp:71-76 | appending a newer sample shifts the coefficients of the older samples by one |
| AdamsSums.LastSample | src/algorithms/adams-bashforth.cpp:71-78 | the history summed with the coefficients from 1 on, plus the newest sample times coefficient 0, is the whole weighted sum |
| AdamsSums.SplitSum | src/algorithms/adams-bashforth.cpp:71-78 | the oldest-first partial sum plus the newest-first rest is the whole sum |
| AdamsSums.CodeOrderIsTextbookSum | src/algorithms/adams-bashforth.cpp:71-78 | the loops' oldest-first accumulation equals the textbook sum of coefficient `j` times the sample `j` steps back |
| AdamsSums.ExactForConstantSamples | src/algorithms/adams-bashforth.cpp:69-81 | a table whose sum times the divisor is 1, applied to equal samples `v`, gives the increment `h v` |
| AdamsSums.ExactForSteadyItems | src/algorithms/adams-bashforth.cpp:69-81 | with such a table and equal items, the increments are `h` times the item's velocity and acceleration |
| AdamsSums.SteadyUpdate | src/algorithms/adams-bashforth.cpp:69-81 | with such a table and every sample equal to the body's own item, the Adams update is an Euler step |
| AdamsBashforthScheme.Samples | src/algorithms/adams-bashforth.cpp:63-78 | body `i`'s samples are its history items, oldest first, then its current velocity and acceleration |
| AdamsBashforthScheme.AbBody | src/algorithms/adams-bashforth.cpp:69-81 | the predictor applied to one body; the textbook formula is `AbIsTextbookFormula`, exactness on steady samples `AbExactForSteadySamples` |
| AdamsBashforthScheme.AbStep | src/algorithms/adams-bashforth.cpp:59-82 | the step keeps the number of bodies |
| AdamsBashforthScheme.BashforthHistorySums | src/algorithms/adams-bashforth.cpp:69-76 | the inner loop pairs frame `k`, oldest first, with `bashforth(order - 1 - k)` and sums velocities and accelerations that way |
| AdamsBashforthScheme.PredictorSums | src/algorithms/adams-bashforth.cpp:69-78 | the history sums plus `bashforth(0)` times the current velocity and acceleration are the predictor sums over all samples |
| AdamsBashforthScheme.AbStepInPlace | src/algorithms/adams-bashforth.cpp:52-85 | every body ends as `AbStep` says, and the history loses its oldest frame and gains the frame of every body's item from before the step |
| AdamsBashforthScheme.AbAdvanceBody | src/algorithms/adams-bashforth.cpp:60-82 | body `i` is advanced by the predictor and no other body changes |
| AdamsBashforthScheme.AbIsTextbookFormula | src/algorithms/adams-bashforth.cpp:69-81 | a body moves by `h d` times the sum of coefficient `j` times the velocity `j` steps back, and its velocity changes likewise by the accelerations |
| AdamsBashforthScheme.AbExactForSteadySamples | src/algorithms/adams-bashforth.cpp:69-81 | a body whose velocity and acceleration were the same over the whole history moves as an Euler step: `x += h v`, `v += h a` |
| AdamsBashforthScheme.AbKeepsReady | src/algorithms/adams-bashforth.cpp:83-85 | after the step the history still holds `order - 1` frames covering every body, the newest being the items from before the step; accelerations and masses are untouched |
| AdamsBashforthMoultonScheme.CorrectorSamples | src/algorithms/abm.cpp:85-98 | the corrector's samples are the history without its oldest frame, then the current item, then the predicted item |
| AdamsBashforthMoultonScheme.Corrected | src/algorithms/abm.cpp:84-101 | the corrector applied to one body, given the predicted item; the textbook formula is `AbmIsTextbookFormula`, the steady case `SteadyCorrection` |
| AdamsBashforthMoultonScheme.AbmBody | src/algorithms/abm.cpp:60-101 | an iteration stops only with a crash at the predicted position, leaving the body as it was |
| AdamsBashforthMoultonScheme.AbmStep | src/algorithms/abm.cpp:41-106 | the step keeps the number of bodies; the history is shifted by the frame from before the step when every body was corrected, and left unchanged after a crash |
| AdamsBashforthMoultonScheme.MoultonHistorySums | src/algorithms/abm.cpp:85-93 | the corrector loop pairs frame `k` with `moulton(order - k)` for `k` from 1 to `order - 2`; the oldest frame is not used |
| AdamsBashforthMoultonScheme.CorrectorSums | src/algorithms/abm.cpp:85-98 | the history sums plus `moulton(1)` times the current item and `moulton(0)` times the predicted item are the whole corrector sums |
| AdamsBashforthMoultonScheme.AbmAdvanceBody | src/algorithms/abm.cpp:60-101 | body `i` is predicted and corrected, or a crash is reported with the universe unchanged |
| AdamsBashforthMoultonScheme.AbmIteration | src/algorithms/abm.cpp:59-102 | one iteration either ends the loop with the crash or continues from the next body with this one corrected |
| AdamsBashforthMoultonScheme.AbmInvariantStep | src/algorithms/abm.cpp:59-102 | an iteration keeps the loop invariant, or the step's result is the crash with the current bodies and the old history |
| AdamsBashforthMoultonScheme.AbmIterate | src/algorithms/abm.cpp:59-102 | one iteration of the body loop keeps the loop invariant or ends the step with the crash |
| AdamsBashforthMoultonScheme.AbmStepInPlace | src/algorithms/abm.cpp:52-105 | the bodies, the outcome and the new history are exactly those of `AbmStep` |
| AdamsBashforthMoultonScheme.AbmCompleted | src/algorithms/abm.cpp:103-105 | a loop that reached the end yields every body corrected and the history shifted by the frame from before the step |
| AdamsBashforthMoultonScheme.AbmInOrder | src/algorithms/abm.cpp:59-102 | the force at body `i`'s predicted position is evaluated with the bodies before `i` corrected and those after it as they were; after a crash the crashing body and the later ones are untouched |
| AdamsBashforthMoultonScheme.AbmIsTextbookFormula | src/algorithms/abm.cpp:85-101 | a corrected body moves by `h d (m_0 v_p + sum over j >= 1 of m_j v_(n+1-j))`, and its velocity changes likewise with the force at the predicted position |
| AdamsBashforthMoultonScheme.AbmExactForUniformMotion | src/algorithms/abm.cpp:70-101 | a body in uniform motion whose history shows that motion, and which feels no force at the predicted position, moves by exactly `h v` |
| AdamsBashforthMoultonScheme.SteadyCorrection | src/algorithms/abm.cpp:94-101 | such a body's correction with its own item as the prediction moves it by `h v` |
| AdamsBashforthMoultonScheme.AbmLoneBodyUniformMotion | src/algorithms/abm.cpp:41-106 | a lone body in uniform motion moves by `h v` and the history is shifted by its item |
| EulerScheme.EulerStep | src/algorithms/euler.cpp:32-40 | the step keeps the number of bodies |
| EulerScheme.Advance | src/algorithms/euler.cpp:37-38 | one body's update `p += dt v`, `v += dt a`; stated field by field in `EulerIsLocal` |
| EulerScheme.EulerStepInPlace | src/algorithms/euler.cpp:32-40 | the universe ends as `EulerStep` of the universe before the step |
| EulerScheme.EulerIsLocal | src/algorithms/euler.cpp:36-39 | a body's new position is `p + dt v` and its new velocity `v + dt a`, from its own old fields only; acceleration, mass and radius stay |
| EulerScheme.EulerZeroStep | src/algorithms/euler.cpp:36-39 | a step of length 0 changes nothing |
| EulerScheme.EulerUniformMotion | src/algorithms/euler.cpp:36-39 | without acceleration, steps of `a` and `b` give the step of `a + b` |
| EulerScheme.EulerLoneBody | src/algorithms/euler.cpp:36-39 | a lone body at the origin moving at (1, 0, 0) reaches (1, 0, 0) in a step of 1, and a body at rest stays |
| Forces.Item | src/algorithms/base.h:45-48 | a body's history item is its velocity and its cached acceleration |
| Forces.Pull | src/algorithms/base.cpp:76 | one term of the sum: `mass * (p - position) / d^3`; a pair's mass-weighted pulls cancel (`PairCancels`, `TwoBodyActionReaction`) |
| Forces.ItemsOf | src/algorithms/adams-bashforth.cpp:63-66 | a frame holds one item per body, in universe order |
| Forces.ItemsOfSnoc | src/algorithms/adams-bashforth.cpp:63-66 | the frame of one more body is the old frame with that body's item appended |
| Forces.PartialSum | src/algorithms/base.cpp:70-77 | the running sum fails only with a crash |
| Forces.AccelerationAt | src/algorithms/base.cpp:65-79 | the acceleration at a position fails only with a crash |
| Forces.PartialSumCrashIffClose | src/algorithms/base.cpp:71-77 | the running sum over the first `n` bodies crashes exactly when one of them, other than the body itself, is closer than 0.1 |
| Forces.CrashIffClose | src/algorithms/base.cpp:74-75 | "crash!" is raised exactly when another body is closer than 0.1 to the position |
| Forces.AccelerationReadsOnlySources | src/algorithms/base.cpp:65-79 | the acceleration depends only on the positions and masses of the other bodies, never on accelerations, velocities or the body itself |
| Forces.LoneBodyFeelsNoForce | src/algorithms/base.cpp:70-78 | a body alone in its universe has zero acceleration anywhere |
| Forces.CloseBodiesCrash | src/algorithms/base.cpp:74-75 | given the laws of the square root, two bodies 0.05 apart crash |
| Forces.WeightedPullComponents | src/algorithms/base.cpp:76-78 | a mass-weighted pull is computed component by component |
| Forces.PairComponentCancels | src/algorithms/base.cpp:76-78 | along one axis, the two mass-weighted pulls of a pair cancel |
| Forces.PairCancels | src/algorithms/base.cpp:76-78 | the two mass-weighted pulls of a pair add up to the zero vector |
| Forces.PairAccelerations | src/algorithms/base.cpp:65-79 | in a universe of two bodies that do not crash, each acceleration is `-G` times the other's pull at the same distance |
| Forces.TwoBodyActionReaction | src/algorithms/base.cpp:65-79 | for two bodies, mass times acceleration adds up to zero (Newton's third law) |
| Forces.AccelerationsFrom | src/algorithms/base.cpp:57-63 | the pass keeps the number of bodies and fails only with a crash |
| Forces.AccelerationsFromAgainstStart | src/algorithms/base.cpp:57-63 | from any point of the pass, every acceleration written is the one computed on the universe before the pass, and a crash leaves exactly the bodies before the crashing one updated |
| Forces.AccelerationsIndependentOfOrder | src/algorithms/base.cpp:57-79 | the pass succeeds exactly when no body crashes; every acceleration is computed on the state before the pass, so the visiting order does not matter, and only acceleration fields change |
| Forces.AccelerationsIdempotent | src/algorithms/base.cpp:57-79 | computing the accelerations twice gives what computing them once gives |
| Forces.ComputeAccelerations | src/algorithms/base.cpp:57-63 | the in-place loop's outcome and bodies are those of `AccelerationsFrom` |
| Sweeps.SweepFrom | src/algorithms/leapfrog.cpp:35-41 | the loop from body `i` keeps the number of bodies and stops at an index from `i` on, succeeding exactly when it reaches the end |
| Sweeps.SweepFromExplained | src/algorithms/leapfrog.cpp:35-41 | from any point on, each advanced body was advanced on a state with the earlier bodies advanced and the later ones as at the start, and a stop leaves the later bodies untouched |
| Sweeps.SweepExplained | src/algorithms/leapfrog.cpp:35-41 | the loop's result is explained by its iterations run in place, one body after another |
| LeapfrogScheme.LeapfrogBody | src/algorithms/leapfrog.cpp:35-41 | an iteration stops only with a crash, leaving the body moved but its velocity not corrected |
| LeapfrogScheme.Moved | src/algorithms/leapfrog.cpp:36-37 | the position update with the code's `dt / 2` weight; without acceleration a move by `dt v` (`MovedWithoutAcceleration`) |
| LeapfrogScheme.Corrected | src/algorithms/leapfrog.cpp:38-40 | the velocity update with the mean of the old and new acceleration; a zero new force on a body without acceleration keeps its velocity (`MovedWithoutAcceleration`) |
| LeapfrogScheme.LeapfrogStep | src/algorithms/leapfrog.cpp:31-42 | the step keeps the number of bodies |
| LeapfrogScheme.LeapfrogIteration | src/algorithms/leapfrog.cpp:35-41 | one iteration moves the body, evaluates the force on the universe that holds it moved, and either stops with the crash or continues with the corrected body |
| LeapfrogScheme.LeapfrogAdvanceBody | src/algorithms/leapfrog.cpp:36-40 | body `i` is moved and corrected, or left moved after a crash; no other body changes |
| LeapfrogScheme.LeapfrogIterate | src/algorithms/leapfrog.cpp:35-41 | one iteration keeps the loop invariant or ends the step as `LeapfrogStep` does |
| LeapfrogScheme.LeapfrogStepInPlace | src/algorithms/leapfrog.cpp:31-42 | the outcome and the bodies are those of `LeapfrogStep` |
| LeapfrogScheme.LeapfrogInOrder | src/algorithms/leapfrog.cpp:35-41 | body `i`'s new force is evaluated with the bodies before it advanced and those after it as they were; a crash leaves the crashing body moved and the later ones untouched |
| LeapfrogScheme.LeapfrogKeepsCache | src/algorithms/leapfrog.cpp:35-41 | the cached acceleration, mass and radius of every body stay as they were, whether or not the step crashes |
| LeapfrogScheme.MovedWithoutAcceleration | src/algorithms/leapfrog.cpp:36-40 | without acceleration a body moves by `dt v`, and correcting with a zero new force keeps its velocity |
| LeapfrogScheme.LeapfrogLone | src/algorithms/leapfrog.cpp:35-41 | a lone body is moved and corrected with zero new force |
| LeapfrogScheme.LeapfrogLoneBody | src/algorithms/leapfrog.cpp:36-40 | a lone body at the origin moving at (1, 0, 0) without acceleration reaches (1, 0, 0) in a step of 1 and keeps its velocity |
| RungeKuttaScheme.Rk4Body | src/algorithms/rk4.cpp:39-55 | an iteration stops only with a crash in one of the three stage evaluations, before the body changes |
| RungeKuttaScheme.SecondStagePoint | src/algorithms/rk4.cpp:44 | the position `p + h k1 / 2` where `l2` is evaluated (`Rk4InOrder` states on which universe) |
| RungeKuttaScheme.ThirdStagePoint | src/algorithms/rk4.cpp:46-47 | the position `p + h k2 / 2`, with `k2 = v + h l1 / 2`, where `l3` is evaluated |
| RungeKuttaScheme.FourthStagePoint | src/algorithms/rk4.cpp:49-50 | the position `p + h k3`, with `k3 = v + h l2 / 2`, where `l4` is evaluated |
| RungeKuttaScheme.Combine | src/algorithms/rk4.cpp:52-55 | the weighted means `k` and `l` applied to the body; with zero stage accelerations a move by `h v` (`CombineWithoutAcceleration`) |
| RungeKuttaScheme.Rk4Step | src/algorithms/rk4.cpp:31-63 | the step keeps the number of bodies; without recording the step data is untouched; when recording it only grows, by at most one item per body, and a completed step appends every body's `(k1, l1)` in universe order |
| RungeKuttaScheme.Rk4Iteration | src/algorithms/rk4.cpp:39-55 | one iteration either stops the loop with the crash or continues from the next body with this one advanced |
| RungeKuttaScheme.Rk4AdvanceBody | src/algorithms/rk4.cpp:40-55 | body `i` is advanced by the four stages, or a crash is reported with the universe unchanged |
| RungeKuttaScheme.Rk4Iterate | src/algorithms/rk4.cpp:39-62 | one iteration keeps the loop invariant, which includes the recorded items, or ends the step as `Rk4Step` does |
| RungeKuttaScheme.Rk4StepInPlace | src/algorithms/rk4.cpp:31-63 | the outcome, the bodies and the step data are those of `Rk4Step` |
| RungeKuttaScheme.Rk4Stopped | src/algorithms/rk4.cpp:39-62 | a loop stopped at body `k` leaves the items of the bodies before `k` recorded |
| RungeKuttaScheme.Rk4Completed | src/algorithms/rk4.cpp:39-62 | a loop that reached the end yields every body advanced and every item recorded |
| RungeKuttaScheme.Rk4InOrder | src/algorithms/rk4.cpp:39-55 | body `i`'s stage evaluations see the bodies before it advanced and those after it as they were; a crash leaves the crashing body and the later ones untouched |
| RungeKuttaScheme.CombineWithoutAcceleration | src/algorithms/rk4.cpp:40-55 | with every stage acceleration zero, all `k` stages equal the velocity, so the body moves by `h v` and keeps `v` |
| RungeKuttaScheme.Rk4Lone | src/algorithms/rk4.cpp:31-63 | a lone body feels no force in any stage, and its item is recorded when recording |
| RungeKuttaScheme.Rk4LoneBody | src/algorithms/rk4.cpp:40-55 | a lone body without acceleration moves by `h v` and keeps its velocity |
| Integrators.Step | src/algorithms/base.h:91-97 | `computeStep` leaves an empty universe and the memory as they were; it keeps the number of bodies and the consistency of history and step data; a recording object's step data is the frame of the items after the acceleration pass |
| Integrators.Implementation | src/algorithms/adams-bashforth.cpp:41-86 | each scheme's step keeps the number of bodies and the consistency of its memory; recording objects record the items of the universe they were given |
| Integrators.AdamsStep | src/algorithms/adams-bashforth.cpp:52-85 | a step with a full history keeps the step data, shifts the history by the frame from before the step on success and keeps it after a crash |
| Integrators.StartUpIsRecordingRk4 | src/algorithms/adams-bashforth.cpp:46-51 | while the history is short, a multistep step is one step of a fresh recording Runge-Kutta object, whose frame is appended unless it crashed |
| Integrators.HistoryWindow | src/algorithms/adams-bashforth.cpp:46-85 | the history grows by one frame per step up to `order - 1` frames and then keeps that length; the newest frame holds every body's item from before the advance; a crash leaves the history as it was |
| Integrators.StartUpWindow | src/algorithms/adams-bashforth.cpp:46-51 | while the history is short, a step appends the frame of the items from before the advance |
| Integrators.SteadyWindow | src/algorithms/adams-bashforth.cpp:83-85 | once the history is full, a step shifts that frame in |
| Integrators.WindowLength | src/algorithms/adams-bashforth.cpp:46-85 | after a successful step the history holds `min(old length + 1, order - 1)` frames |
| Integrators.Repeated | src/algorithms/base.h:91-97 | repeated steps keep the number of bodies and the consistency of the memory |
| Integrators.StartUpLength | src/algorithms/adams-bashforth.cpp:46-51 | `n` steps without a crash leave `min(old length + n, order - 1)` frames, so the start-up ends after `order - 1` steps from an empty history |
| Integrators.TypeOf | src/algorithms/adams-bashforth.cpp:88-96 | `getType` of every scheme (also euler.h:43-45, leapfrog.h:41-43, rk4.cpp:66-71 and abm.cpp:109-117) gives an Adams type exactly for the Adams schemes, and one of order 4 exactly for order 4 |
| Integrators.FactoryConfig | src/algorithms/factory.cpp:41-62 | the factory's object for a type is non-recording, its Runge-Kutta order is 4, and `getType` gives the type back |
| Integrators.FactoryOf | src/algorithms/factory.cpp:37-67 | the factory succeeds exactly for the values 0 to 6, fails with "Unknown algorithm type" otherwise, and `getType` of its object gives the value back |
| Integrators.Algorithm.constructor | src/algorithms/base.h:84 | a new integrator has its scheme and order, an empty history and no step data |
| Integrators.Algorithm.ComputeStep | src/algorithms/base.h:91-97 | the outcome, the bodies and the memory after `computeStep` are those of `Step` |
| Integrators.Algorithm.ComputeStepImplementation | src/algorithms/base.h:112-113 | the dispatch to the scheme's own step gives what `Implementation` says |
| Integrators.Algorithm.StartUp | src/algorithms/adams-bashforth.cpp:46-51 | a fresh recording Runge-Kutta object takes the step and its data is appended to the history unless it crashed |
| Integrators.Algorithm.AdamsStepInPlace | src/algorithms/adams-bashforth.cpp:52-85 | a step with a full history gives what `AdamsStep` says |
| Integrators.Algorithm.Reset | src/algorithms/adams-bashforth.cpp:34-39 | `reset` empties the history and keeps the step data |
| Integrators.Factory | src/algorithms/factory.cpp:37-67 | the factory returns a fresh object with an empty history exactly for the values 0 to 6, and "Unknown algorithm type" otherwise |
| SimulationHistories.Coordinates | src/simulationhistory.cpp:53-58 | a vector adds three numbers to a row |
| SimulationHistories.ReadBack | src/simulationhistory.cpp:52-59 | appending a vector to a row of `k` states stores it as state `k` and keeps the earlier states |
| SimulationHistories.GrownReadsBack | src/simulationhistory.cpp:52-59 | after one save every row has three more numbers and its newest state is the saved body's vector |
| SimulationHistories.TruncationKeepsPrefix | src/simulationhistory.cpp:106-114 | cutting a row after `k` states keeps the states before `k` |
| SimulationHistories.Grown | src/simulationhistory.cpp:52-59 | the rows after one save are the old rows, each with the coordinates of the body of the same index appended |
| SimulationHistories.StartRows | src/simulationhistory.cpp:46-50 | the first save starts from one empty row per body |
| SimulationHistories.SaveError | src/simulationhistory.cpp:35-44 | `save` fails on an empty universe, then on a changed body count, then on a time before the last saved one; an equal time is accepted |
| SimulationHistories.SortedSnoc | src/simulationhistory.cpp:39-60 | a time no earlier than the last keeps the time stamps sorted |
| SimulationHistories.SimulationHistory.constructor | src/simulationhistory.h:45 | a new history has no bodies, rows or states |
| SimulationHistories.SimulationHistory.Empty | src/simulationhistory.h:68-70 | `empty()` holds exactly when no bodies, and so no states, are saved |
| SimulationHistories.SimulationHistory.UniverseSize | src/simulationhistory.h:74-76 | `universeSize()`: `N`, fixed by the first `save` (`Save`) and reset by `clear` (`Clear`, `ClearFrom`) |
| SimulationHistories.SimulationHistory.HistorySize | src/simulationhistory.h:81-83 | `historySize()`: the number of saved states, which `Save` raises by one and `ClearFrom` cuts to `from` |
| SimulationHistories.SimulationHistory.Save | src/simulationhistory.cpp:31-63 | the checks come before any change and fail as `SaveError` says; a save fixes the body count, appends every body's position and velocity and the clock's time, and the new state reads back as the universe; rows stay three numbers per state and times stay sorted |
| SimulationHistories.SimulationHistory.AppendState | src/simulationhistory.cpp:52-59 | the loop appends each body's position and velocity to its rows |
| SimulationHistories.SimulationHistory.Restored | src/simulationhistory.cpp:77-84 | loading writes the stored position and velocity into the first `N` bodies and leaves the rest |
| SimulationHistories.SimulationHistory.Load | src/simulationhistory.cpp:65-86 | a missing argument, an empty history and an index past the states are errors that change nothing; otherwise the stored positions and velocities are written into the bodies, and the clock is set to the stored time; a universe with fewer than `N` bodies fails with IndexOutOfRange after its bodies were written, leaving the clock |
| SimulationHistories.SimulationHistory.Clear | src/simulationhistory.cpp:88-95 | `clear()` forgets every body and state |
| SimulationHistories.SimulationHistory.ClearFrom | src/simulationhistory.cpp:97-117 | `clear(from)` does nothing past the states, clears everything for 0, and otherwise cuts every row and the times after `from` states, keeping the bodies |
| SimulationHistories.SimulationHistory.BodyPosition | src/simulationhistory.cpp:119-130 | fails for a body index past `N`, then for a state index past the states, and otherwise gives the stored position |
| SimulationHistories.SimulationHistory.BodyPositions | src/simulationhistory.cpp:132-138 | fails exactly for a body index past `N`; otherwise the row has three numbers per state and holds the body's positions |
| SimulationHistories.SaveThenLoad | src/simulationhistory.cpp:31-86 | saving and then loading the state just saved fails exactly as `save` does; otherwise every body has its position and velocity back and the clock its time |
| Orbits.CapacityHoldsWholeVertices | src/gui/orbit.cpp:37 | the ring's 6000 numbers hold 2000 whole vertices |
| Orbits.WrittenGuardAdmitsEnd | src/gui/orbit.cpp:56-63 | the guard as written does not stop the index one past the last saved state, whose read starts at the end of the row |
| Orbits.GuardKeepsReadInside | src/gui/orbit.cpp:56-63 | with the corrected guard, an index that passes reads three numbers inside the row |
| Orbits.RingAppend | src/gui/orbit.cpp:58-74 | writing a vertex after the contents of a ring that is not full appends it |
| Orbits.RingRotate | src/gui/orbit.cpp:58-71 | writing over the oldest vertex of a full ring and moving the start past it drops that vertex and appends the new one |
| Orbits.EndOfRing | src/gui/orbit.cpp:58-59 | the write position is after the contents of a ring that is not full, or the oldest vertex of a full one, and the vertex fits before the end of the buffer |
| Orbits.Orbit.constructor | src/gui/orbit.cpp:31-38 | the body must be a saved one; a new trail is empty, starts at 0 and has read no state |
| Orbits.Orbit.Available | src/gui/orbit.h:100-102 | `available()` is the capacity minus the length: 0 exactly when full, the capacity exactly when empty |
| Orbits.Orbit.Full | src/gui/orbit.h:92-94 | `full()`: the length is the capacity; exactly when `available()` is 0 (`Available`) |
| Orbits.Orbit.Empty | src/gui/orbit.h:96-98 | `empty()`: the length is 0; exactly when `available()` is the capacity (`Available`) |
| Orbits.Orbit.WriteNext | src/gui/orbit.cpp:58-75 | the vertex of the current state is appended; a full ring drops its oldest vertex and moves its start instead of growing; when the start wraps to 0 the index stays, so the same state is written again |
| Orbits.Orbit.Append | src/gui/orbit.cpp:72-74 | a ring that is not full grows by the written vertex |
| Orbits.Orbit.Rotate | src/gui/orbit.cpp:67-71 | a full ring replaces its oldest vertex and its start moves on, wrapping at the end |
| Orbits.Orbit.Put | src/gui/orbit.cpp:61-65 | the upload replaces three numbers of the buffer and no others |
| Orbits.Orbit.UpdateData | src/gui/orbit.cpp:51-78 | the ring stays valid; it fails exactly when there is something to write and the body is no longer saved; otherwise it stops once the index passes `until` or the corrected guard stops it, and the index never goes back |
| Units.MetersPer | src/projectparser.cpp:41-44 | every length unit has a positive size in metres, which is 1 exactly for the metre |
| Units.ToMeters | src/projectparser.cpp:40-44 | the first half of a conversion scales the value by the size of the source unit |
| Units.AuToMetersUnchanged | src/projectparser.cpp:43-52 | as written, one astronomical unit converted to metres is still 1 |
| Units.MetersToAuUnchanged | src/projectparser.cpp:43-52 | as written, metres converted to astronomical units come back unchanged |
| Units.KmToAuGivesMeters | src/projectparser.cpp:41-52 | as written, one kilometre converted to astronomical units gives 1000 |
| Units.ConvertLengthAsWritten | src/projectparser.cpp:38-53 | the vector `convertUnits` for lengths as written; where it departs from the intended conversion is stated by `AuToMetersUnchanged`, `MetersToAuUnchanged`, `KmToAuGivesMeters` and `AsWrittenAgreesAwayFromAu` |
| Units.ConvertLength | src/projectparser.cpp:38-53 | the intended vector `convertUnits` for lengths, testing the target unit in the second branch; its properties are the `ConvertLength*` lemmas |
| Units.AsWrittenAgreesAwayFromAu | src/projectparser.cpp:38-53 | the code as written agrees with the intended conversion whenever neither or both units are the astronomical unit |
| Units.AuToMeters | src/projectparser.cpp:43-50 | the intended conversion of one astronomical unit gives 149597870700 metres |
| Units.ConvertLengthKeepsMeters | src/projectparser.cpp:38-53 | for the intended conversion, the result measured in the target unit is the value in metres |
| Units.ConvertLengthSameUnit | src/projectparser.cpp:38-53 | for the intended conversion, converting to the same unit changes nothing |
| Units.ConvertLengthRoundTrip | src/projectparser.cpp:38-53 | for the intended conversion, converting there and back gives the value back |
| Units.ConvertLengthComposes | src/projectparser.cpp:38-53 | for the intended conversion, converting in two steps is converting in one |
| Units.ConvertLengthScalarAsWritten | src/projectparser.cpp:33-36 | the scalar `convertUnits` for lengths as written: AU to metres leaves the value unchanged, metres or km to AU give metres, and every other pair agrees with the intended conversion |
| Units.RadiusStaysInAu | src/projectparser.cpp:33-36 | as written, a radius of 1 AU converted to metres stays 1; the intended conversion gives 149597870700 |
| Units.ConvertLengthScalar | src/projectparser.cpp:33-36 | the intended scalar conversion multiplies by the source unit's size and divides by the target unit's |
| Units.DayIsAnHour | src/projectparser.cpp:62-70 | as written, one day converts to 3600 seconds |
| Units.SecondsPer | src/projectparser.cpp:62-64 | the intended sizes: every time unit has a positive size in seconds, 1 exactly for the second and 24 × 60 × 60 for the day, where the code multiplies by 3600 |
| Units.ConvertTimeAsWritten | src/projectparser.cpp:60-71 | the vector `convertUnits` for times as written, with a 3600-second day (`DayIsAnHour`, `TimeConversionsDifferOnlyInTheDay`) |
| Units.ConvertTime | src/projectparser.cpp:60-71 | the intended vector `convertUnits` for times, with an 86400-second day; its properties are the `ConvertTime*` lemmas |
| Units.DayIsADay | src/projectparser.cpp:62-70 | the intended conversion gives 86400 seconds for a day |
| Units.ConvertTimeKeepsSeconds | src/projectparser.cpp:60-71 | for the intended conversion, the result measured in the target unit is the value in seconds |
| Units.ConvertTimeRoundTrip | src/projectparser.cpp:60-71 | for the intended conversion, converting a time there and back gives the value back |
| Units.TimeConversionsDifferOnlyInTheDay | src/projectparser.cpp:60-71 | both the written and the intended conversion are the identity between equal units, and the written one keeps the value in its own, 3600-second, day |
| Units.ConvertTimeScalarAsWritten | src/projectparser.cpp:55-58 | the scalar `convertUnits` for times as written: multiplies by the source unit's written seconds and divides by the target unit's, so day to seconds gives a 24th of the intended value and seconds to day 24 times it |
| Units.ConvertTimeScalar | src/projectparser.cpp:55-58 | the intended scalar conversion multiplies by the source unit's seconds and divides by the target unit's |

## Left out

- Floating point: every number is an exact `real`. Rounding, `long double` precision, the truncation of positions to `GLfloat` in the history and accuracy or energy claims are not modelled.
- Vectors.Magnitude: `std::sqrt` is an arbitrary fixed function `Sqrt`. The lemmas that need its laws (`MagnitudeLaws`, `MagnitudeBelow`, `CloseBodiesCrash`) take them as a precondition. `pow(d, 3)` is `d * d * d`.
- Vector stream output `operator<<` and `operator=`: the first is I/O, and the value datatype has no self-assignment to guard against.
- Integrators.Algorithm.ComputeStep: requires every history frame to hold one item per body. The code asserts this only of the newest frame, but it reads every frame at the body's index.
- Integrators.TypeOf: requires order 4 for Runge-Kutta and order 4 or 8 for the Adams schemes, the orders the code asserts in `getType`.
- The null universe pointer of `computeStep`: the universe is always an array.
- `SimulationTime`'s counter wraps modulo 2^32 in `UpdateTime`; no other unsigned arithmetic wraps in the model. The `unsigned` indices of `SimulationHistory` and `Orbit` are natural numbers.
- Orbits.Orbit.UpdateData: states why the loop stopped and that the ring stays valid, not the final contents. Each write's effect on the contents is the contract of `WriteNext`.
- `Orbit::initialize` and `Orbit::draw`: OpenGL calls. The OpenGL buffer is an array of reals of the same length, written by `Put`.
- `ProjectParser` (XML parsing, file I/O): only `convertUnits` is modelled, both as written and as intended; the loader's calls at projectparser.cpp:132-139 are not.
- The user interface and the drivers (`animation`, `sphere`, `mainwindow`, `simulation`, `arguments`, `main`, `main-cmd`): timers, rendering and printing.
- A body's `name` and `visibleSizeMultiplier`, which only the user interface reads.
- The exception class: every exception is a value of `Outcomes.Error`.

## Findings

| source | as written | input that shows it | evidently intended | confidence | as-written member | corrected member |
|---|---|---|---|---|---|---|
| src/projectparser.cpp:49 | the second branch of the length conversion tests the source unit for AU | one AU converted to metres comes back as 1 (`Units.AuToMetersUnchanged`); one km converted to AU gives 1000 (`Units.KmToAuGivesMeters`) | test the target unit, so the result is the value in metres divided by the target unit's size | high; not executed | Units.ConvertLengthAsWritten, Units.ConvertLengthScalarAsWritten | Units.ConvertLengthRoundTrip, Units.ConvertLengthScalar |
| src/projectparser.cpp:64 | a day is taken as 3600 seconds (also at line 68) | one day converted to seconds gives 3600 (`Units.DayIsAnHour`) | 86400 seconds per day | medium; not executed | Units.ConvertTimeAsWritten, Units.ConvertTimeScalarAsWritten | Units.ConvertTimeKeepsSeconds, Units.ConvertTimeScalar |
| src/gui/orbit.cpp:56 | the guard stops only when `history_index * 3` exceeds the row's length | a history with one saved state and a trail whose index is 1, updated with `until` 1: the guard lets index 1 through and the read at line 63 starts at the end of the row (`Orbits.WrittenGuardAdmitsEnd`) | stop when `history_index * 3` reaches the row's length | medium (latent while callers pass `until` below `historySize()`); not executed | Orbits.WrittenGuardStops | Orbits.GuardKeepsReadInside |

# Explicit Runge-Kutta integrators in Dafny

This project models `ODEint.py`, which holds two explicit Runge-Kutta
integrators for systems of ordinary differential equations `y' = f(y)`:

- `RungeKutta4`: the classical four-stage method with a constant step and an
  optional stopping criterion asked before every step;
- `RungeKuttaFehlberg45`: Fehlberg's six-stage embedded 4(5) pair with an
  adaptive step. Each call of `next_step` tries a step `h1`, estimates the
  error `err = ‖y4 − y5‖ / h1 / Atol`, and either rejects the trial and
  rescales `h1` by `SF · err^(−0.2)` clamped to [0.1, 4], or accepts it. On
  acceptance it returns `x + h1`, the fourth-order state `y4` and a proposed
  next step `h2` bounded by the signed `hmax`.

Floating-point numbers are modelled as Dafny `real`, state vectors as
`seq<real>`, and the derivative `f` as a function value passed in with the
solver's configuration.

Files and modules:

- `vectors.dfy` (`Vectors`): the element-wise vector arithmetic and `np.dot`
  of a weight row with a stage matrix.
- `tableau.dfy` (`Tableaux`): Butcher tableaux, the consistency conditions,
  and the stage loop `k[i,:] = h*f(y + np.dot(a[i], k))`. The loop is a
  method filling an `array<seq<real>>` in place.
- `rk4.dfy` (`RungeKutta4`): the classical tableau, `next_step` and
  `integrate`.
- `rkf45.dfy` (`RungeKuttaFehlberg45`): Fehlberg's tableau, one trial, the
  step-size controller, `next_step` with its retry loop, and `integrate`.

Both `next_step` methods allocate `k` once and fill it in place. Fehlberg's
retry loop reuses `k` without clearing it. `Tableaux.FillStages` proves that
the filled matrix equals the explicit stages whatever rows it held before. The
stage loop's specification is the recursive function `Tableaux.Stages`.

The retry loop is specified by the ghost function
`RungeKuttaFehlberg45.Search`: the outcome of at most `fuel` trials starting
from step `h1`. `RungeKuttaFehlberg45.NextStep` is proved to return exactly
`Search`. Both drivers return the lists `x` and `y`. Their loops are proved to
keep a trajectory invariant: every point but the last passed the loop guard,
and the next point is what `next_step` returned from it.

## Model

| member | source | states |
|---|---|---|
| RungeKutta4.Rk4 | ODEint.py:11-24 | The classical tableau: `a`, the weight row `b` and the nodes `c`, entry by entry. Its properties are stated by `Rk4TableauConsistent`. |
| RungeKutta4.Rk4TableauConsistent | ODEint.py:11-24 | The classical tableau is strictly lower triangular, its weights sum to 1 and each row of `a` sums to its node `c[i]`, in exact rational arithmetic. |
| RungeKutta4.SumOfFour | ODEint.py:11-24 | The sum of a four-entry coefficient row is the sum of its four entries. |
| RungeKutta4.Update | ODEint.py:56-59 | The new state `y + np.dot(b, k)` over the four stages has the dimension of `y`. |
| RungeKutta4.ClassicalStages | ODEint.py:56-57 | The textbook stages k1..k4 are four rows of the dimension of `y`. |
| RungeKutta4.Classical | ODEint.py:59 | The textbook step `y + (k1 + 2 k2 + 2 k3 + k4) / 6` keeps the dimension of `y`. |
| RungeKutta4.StagesAreClassical | ODEint.py:54-57 | The four stages computed from the tableau are exactly the textbook k1..k4. |
| RungeKutta4.UpdateIsClassical | ODEint.py:54-59 | The tableau-driven step equals the classical formula `y + (k1 + 2 k2 + 2 k3 + k4) / 6`. |
| RungeKutta4.NextStep | ODEint.py:53-63 | `next_step` returns `x1 = x + h` and `y1 = Update(f, y, h)`, after filling the zero-initialised `k` in place. |
| RungeKutta4.SteppedExtend | ODEint.py:34-41 | Appending one step taken from the last point keeps the trajectory invariant. |
| RungeKutta4.Integrate | ODEint.py:26-50 | `x` and `y` have equal length, at least 1 and at most `maxSteps + 1`. They start with `(x_start, y_start)` and every state keeps the dimension of `y_start`. Consecutive points passed the guard and the stopping criterion and differ by one step: `x` by exactly `step`, `y` by `Update`. When the step bound is not hit, the last point fails the guard or the criterion. If the first point fails either, only the first point is returned. |
| Tableaux.NextStage | ODEint.py:57 | A stage computed from the earlier stages has the dimension of `y`. |
| Tableaux.Stages | ODEint.py:56-57 | The first `i` stages are `i` rows of the dimension of `y`. |
| Tableaux.StagesPrefix | ODEint.py:56-57 | Computing more stages leaves the earlier stages unchanged. |
| Tableaux.StageIsExplicit | ODEint.py:56-57 | Stage `j` is computed from stages `0..j-1` only. |
| Tableaux.StageFrom | ODEint.py:57 | A row computed from the whole current matrix `k` has the dimension of `y`. |
| Tableaux.StageReadsOnlyEarlierRows | ODEint.py:119-124 | With a strictly lower-triangular `a`, a row computed from the whole current `k` equals the stage computed from its first `i` rows. Rows left from a rejected trial never reach it. |
| Tableaux.FillOne | ODEint.py:123-124 | One turn of the stage loop extends the correct prefix of `k` by one stage. |
| Tableaux.FillStages | ODEint.py:119-124 | The in-place stage loop leaves `k` holding exactly the explicit stages, whatever `k` held before. |
| Vectors.Dot | ODEint.py:57-59 | `np.dot(w, k)`: the weighted sum of the rows of `k` (also at ODEint.py:124-127), a vector of the rows' dimension. Its meaning is stated by `DotOfFour`, `DotIgnoresZeroTail` and `DotReadsOnlyLeadingRows`. |
| Vectors.DotIgnoresZeroTail | ODEint.py:124 | `np.dot(w, k)` with weights that are zero from index `i` on reads only the first `i` rows of `k`. |
| Vectors.DotReadsOnlyLeadingRows | ODEint.py:119-124 | Two stage matrices that agree on their first `i` rows give the same product with such a weight row. |
| Vectors.DotOfFour | ODEint.py:59 | `np.dot` of a four-entry weight row with four rows is the weighted sum of the rows, component by component. |
| RungeKuttaFehlberg45.Fehlberg45 | ODEint.py:77-93 | Fehlberg's tableau: `a`, the fifth-order (`b[0]`) and fourth-order (`b[1]`) weight rows and the nodes `c`, entry by entry. Its properties are stated by `FehlbergTableauConsistent`. |
| RungeKuttaFehlberg45.SumOfSix | ODEint.py:77-93 | The sum of a six-entry coefficient row is the sum of its six entries. |
| RungeKuttaFehlberg45.FehlbergExplicit | ODEint.py:77-93 | Fehlberg's `a` is strictly lower triangular, and `b` and `c` have six entries per row. |
| RungeKuttaFehlberg45.FehlbergWeightsSumToOne | ODEint.py:86-89 | Both weight rows sum to exactly 1. |
| RungeKuttaFehlberg45.FehlbergRowSumsAreNodes | ODEint.py:77-93 | Each row of `a` sums to exactly its node `c[i]`. |
| RungeKuttaFehlberg45.FehlbergTableauConsistent | ODEint.py:77-93 | Fehlberg's tableau is explicit and consistent, in exact rational arithmetic. |
| RungeKuttaFehlberg45.Solver.Atol | ODEint.py:70 | `Atol = 10 ** (-AccuracyGoal)` is positive. |
| RungeKuttaFehlberg45.TenToThe | ODEint.py:70 | An integer power of 10 is positive; it is at least 1 for a non-negative exponent and below 1 for a negative one. |
| RungeKuttaFehlberg45.WithArgs | ODEint.py:124 | Fixing the extra arguments of `f` gives a derivative that keeps the state's dimension. |
| RungeKuttaFehlberg45.TrialAt | ODEint.py:123-131 | One trial yields `y4` and `y5` of the dimension of `y`. With a valid norm, `err` is non-negative, and `err == 0` exactly when `y4 == y5`. |
| RungeKuttaFehlberg45.SubIsZeroIff | ODEint.py:129-131 | `y4 - y5` is the zero vector exactly when `y4 == y5`. |
| RungeKuttaFehlberg45.ScaledNorm | ODEint.py:131 | `norm / h1 / Atol` is non-negative, and zero exactly when the norm is zero. |
| RungeKuttaFehlberg45.RunTrial | ODEint.py:123-131 | The in-place trial overwrites the reused `k` with exactly the six stages of step `h1`, whatever it held before, and computes exactly `TrialAt` for step `h1`. |
| RungeKuttaFehlberg45.RejectFactor | ODEint.py:134-140 | The factor applied to a rejected step lies in [0.1, 4]. |
| RungeKuttaFehlberg45.RejectFactorIsNearest | ODEint.py:135-140 | The three-way branch on `delta` picks the point of [0.1, 4] nearest to `delta`. |
| RungeKuttaFehlberg45.RejectionShrinks | ODEint.py:133-140 | With `SF ≤ 1` and `err > 1`, `delta = SF · err^(−0.2)` is below 1, so the applied factor lies in [0.1, 1) and the ×4 branch is never taken. |
| RungeKuttaFehlberg45.Retry | ODEint.py:134-140 | The retried step `h1 * clamp(SF · err^(−0.2))` after a rejection. Its properties are stated by `RetryWithin` and `RetryShrinks`. |
| RungeKuttaFehlberg45.Rescale | ODEint.py:135-140 | The three updates `h1 *= 0.1`, `h1 *= 4` and `h1 *= delta` as one multiplication by the clamped factor. Its properties are stated by `RescaleWithin` and `RescaleBelow`. |
| RungeKuttaFehlberg45.RescaleWithin | ODEint.py:135-140 | A positive step multiplied by the clamped factor stays between a tenth and four times the step, so it stays positive. |
| RungeKuttaFehlberg45.RescaleBelow | ODEint.py:135-140 | A clamped factor below 1 strictly shrinks a positive step. |
| RungeKuttaFehlberg45.RetryWithin | ODEint.py:133-141 | The retried step `h1 * clamp(delta)` lies between `0.1·h1` and `4·h1`, so it stays positive. |
| RungeKuttaFehlberg45.RetryShrinks | ODEint.py:133-141 | After a rejection with `SF ≤ 1`, the retried step is strictly shorter than `h1` and at least `0.1·h1`. |
| RungeKuttaFehlberg45.CapByHmax | ODEint.py:144-152 | `min(hmax, v)` when `hmax > 0`, and `max(hmax, v)` otherwise. The result is one of the two and lies on the correct side of both. |
| RungeKuttaFehlberg45.Proposal | ODEint.py:143-152 | The proposed step before `hmax` is applied: `2·h1` when `err == 0` (lines 145, 147), else `h1·SF·err^(−0.2)` (lines 150, 152). `ProposeNext`, `ExactStepGrows` and `ProposalPositive` state what it yields. |
| RungeKuttaFehlberg45.ProposeNext | ODEint.py:143-153 | `h2` is `hmax` or the proposal (`2·h1` when `err == 0`, else `h1·SF·err^(−0.2)`). It is at most both when `hmax > 0`, and at least both otherwise. |
| RungeKuttaFehlberg45.ExactStepGrows | ODEint.py:143-148 | With `err == 0`, `h2 = 2·h1` unless `hmax` caps it. In any case `h2 ≥ h1` or `h2 == hmax`. |
| RungeKuttaFehlberg45.ProposalPositive | ODEint.py:143-153 | With `SF > 0`, an accepted positive step proposes a positive next step, whatever the sign of `hmax`. |
| RungeKuttaFehlberg45.Search | ODEint.py:118-156 | An accepted outcome advances `x`. Its state keeps the dimension of `y`, and its proposed step is positive when `SF > 0` and the numerics are valid. |
| RungeKuttaFehlberg45.SearchNeverGrows | ODEint.py:133-155 | With `SF ≤ 1`, the accepted step `x1 - x` is at most the first trial step. It is strictly smaller when the first trial is rejected. |
| RungeKuttaFehlberg45.SearchAccepts | ODEint.py:133-156 | The loop exits only on `err ≤ 1` of the trial at the accepted step `h = x1 - x`. It returns that trial's `y4`, not `y5`, and the `h2` proposed from it. |
| RungeKuttaFehlberg45.SearchFuelMonotone | ODEint.py:121-141 | Allowing more trials never changes an accepted outcome. |
| RungeKuttaFehlberg45.SearchTurn | ODEint.py:121-153 | One turn of the retry loop: a rejection hands on to the retried (positive) step with one trial fewer, and an acceptance returns `(x + h1, y4, h2)`. |
| RungeKuttaFehlberg45.NextStep | ODEint.py:118-156 | The retry loop, run on one stage matrix reused across trials, returns exactly `Search`. |
| RungeKuttaFehlberg45.FirstTrialAccepted | ODEint.py:133-156 | When the first trial has `err ≤ 1`, `next_step` returns `x + h`, that trial's `y4` and the `h2` proposed from it. |
| RungeKuttaFehlberg45.TrajectoryExtend | ODEint.py:103-108 | Appending the point accepted from the last point, with its `h2` as the next trial step, keeps the trajectory invariant. |
| RungeKuttaFehlberg45.SteppedExtend | ODEint.py:103-108 | Appending one accepted step keeps every recorded trial step positive and every pair of consecutive points linked by `next_step`. |
| RungeKuttaFehlberg45.SteppedAdvances | ODEint.py:103-108 | Along the trajectory `x` strictly increases. |
| RungeKuttaFehlberg45.IncreasingUpTo | ODEint.py:103-108 | Each later point of the trajectory has a larger `x` than each earlier one. |
| RungeKuttaFehlberg45.Advance | ODEint.py:103-108 | One loop turn appends the point returned by `next_step` and adopts its `h2`, or reports that the retries ran out and changes nothing. |
| RungeKuttaFehlberg45.Integrate | ODEint.py:95-115 | The returned lists form a trajectory: equal lengths, at most `maxSteps + 1` points, starting at `(x_start, y_start)` with `initial_step`, states of the dimension of `y_start`. Each point but the last passed `abs(x) <= abs(x_end)`, and `next_step` from it with the previous `h2` returned the next point. `x` strictly increases. When the step bound is not hit, the last point fails the guard or its retries ran out. |

## Left out

- Floating point: values are exact reals. There is no rounding, overflow, NaN or infinity, and no claim about accuracy or convergence order.
- `np.linalg.norm` and `err ** (-0.2)`: Dafny has neither square roots nor fractional powers. Both are function values in `RungeKuttaFehlberg45.Numerics`, and its `Valid` predicate states the properties the controller relies on. The norm is non-negative and zero exactly on the zero vector. The power is positive for a positive argument and below 1 for an argument above 1.
- The derivative `f` and the stopping criterion are function parameters. `f` is required to return a vector of the dimension it is given. The `*`-unpacking of the state and the `args` pass-through become a second parameter of `f` of a type the caller chooses.
- Termination: neither the retry loop of `RungeKuttaFehlberg45.next_step` nor the `integrate` loops need terminate in the source. The model bounds them by `maxTrials` and `maxSteps`. `RungeKuttaFehlberg45.Search` returns `None` when every allowed trial is rejected; the source would keep retrying.
- RungeKuttaFehlberg45.NextStep and RungeKuttaFehlberg45.Integrate require a positive trial step, and `Integrate` also requires `SF > 0`. The source does no error control outside that regime, because `err` at ODEint.py:131 is a numpy float. With a negative `h1`, `err` is never positive, so every trial is accepted. A negative `err` raised to `-0.2` is NaN, and `min(hmax, nan)` and `max(hmax, nan)` at ODEint.py:150/152 both return `hmax`: the next step becomes `hmax` (by default `1e16`). With a zero step, `0/0` is NaN: the trial is accepted, `x1 = x` and `h2 = hmax`. So `x` only increases in the model; backward integration with a negative step is not modelled.
- `KeyboardInterrupt` handling and `verbose` printing (ODEint.py:46-48, 110-113) are I/O and are not modelled. Neither are the unused `tolerance`, `Rtol`, `exit`, the constructor's `initial_step` of `RungeKuttaFehlberg45` (ODEint.py:66, 72; `integrate` takes its own `initial_step` at ODEint.py:95, 100) and the unused local `h` of `RungeKutta4.integrate`. `RungeKutta4.next_step` is always called with `self.step`.
- The node vector `c` is never read by either integrator: the derivative does not depend on `x`. It appears only in the consistency lemmas.
- RungeKuttaFehlberg45.Integrate: does not state a closed form for the points' `x` values. It states instead that `x1 - x` is the accepted trial step, through `RungeKuttaFehlberg45.SearchAccepts`.
- RungeKuttaFehlberg45.RetryShrinks: states strict shrinking only for `SF ≤ 1` (the default is 0.84). With `SF > 1` a rejection can grow the step by up to 4.
- RungeKuttaFehlberg45.Solver.Atol: for a large `AccuracyGoal`, floating-point `10 ** (-AccuracyGoal)` underflows to 0. The division at ODEint.py:131 then gives `inf` for a nonzero norm, so every trial is rejected and `h1` shrinks by 0.1 per retry. A zero norm gives NaN and the trial is accepted with `h2 = hmax`. In the model `Atol` is always positive.
- A dense numpy matrix `k` becomes an array of rows (`array<seq<real>>`). Writing row `i` replaces the whole row.

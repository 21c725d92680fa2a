# Learning-rate schedule compiler

A Dafny model of `trainercore.build_lr_schedule`, the trainer core's learning-rate
schedule compiler. It takes an ordered mapping of named stages. Each stage has a shape
(`linear`, `flat` or `decay`), a `start` epoch, an `n_epochs` length and
shape-specific rates. The compiler turns them into one function `lr_calculator(iteration)`:

- Each stage gets a condition. Every stage but the last gets the half-open
  `[start, start + n_epochs)`. The last stage gets the open-ended `x >= start`.
- Each stage gets a rate function:
  - a linear stage uses `numpy.interp`, which clamps outside the stage's domain;
  - a flat stage is a constant;
  - a decay stage relaxes exponentially toward `floor`.
- The lists are combined with `numpy.piecewise` at the progress
  `iteration * (minibatch_size / train_data_size)`, measured in epochs.

Modules:

- `Wrappers` (`wrappers.dfy`): `Option`, for optional configuration keys and for a
  name that may be unbound.
- `Numeric` (`numeric.dfy`): two-point `numpy.interp`, exponential relaxation, and
  `ExpLike`, which is what the model assumes of `exp`. `exp` is a parameter of type
  `real -> real`. Where a property needs it, it is constrained to `exp(0) = 1`,
  positive and strictly increasing.
- `LrSchedule` (`lr_schedule.dfy`): contains
  - the `Stage` datatype;
  - the compiled `Condition` / `RateFn` / `Schedule` values;
  - the compile loop (`BuildSchedule`) and its functional reading (`Compile`);
  - `numpy.piecewise` as a loop (`PiecewiseLoop`) and as "last holding condition
    wins, else 0" (`Evaluate`);
  - the progress conversion and `LrCalculator`.
- `DefaultSchedule` (`default_schedule.dfy`): the built-in three-stage schedule
  and its properties.
- `LateBinding` (`late_binding.dfy`): the late-bound `rate` variable, see Findings.

Behaviour the model keeps from the code:

- **Overlapping stages.** `numpy.piecewise` writes the pieces in list order, so
  when several conditions hold, the LATER stage wins. When none holds, the result
  is 0. A "first matching stage wins" reading disagrees with the code; the model
  follows the code. The two readings differ only when stages overlap.
- **No validation.** The code performs none. It raises no configuration error for
  unknown shapes, non-positive lengths or decay rates, or non-contiguous stages.
  Unknown shapes and missing required keys cannot be written in the `Shape`
  datatype. Non-contiguous stages are modelled: the gap evaluates to 0.
- **Late binding of `rate`.** The flat and decay functions read the enclosing
  `rate` variable when they are called. Every flat or decay stage therefore uses
  the rate assigned by the last flat or decay stage in the list (`LastRate`).
  Linear stages bind all their values when built.

## Model

| member | source | states |
|---|---|---|
| `Numeric.Interp` | src/utils/core/trainercore.py:273 | numpy.interp over [start, start+n_epochs] → [initial, final]: at or below the left end it is the initial rate, at or above the right end the final rate, in between it lies on the line through both points, and it never leaves the range of the two rates |
| `Numeric.InterpMidpoint` | src/utils/core/trainercore.py:273 | halfway through the domain the interpolated rate is the mean of the initial and final rates |
| `Numeric.InterpMonotone` | src/utils/core/trainercore.py:273 | a ramp from a lower to a higher rate never decreases in x |
| `Numeric.RelaxBounds` | src/utils/core/trainercore.py:287 | `(rate-f)*exp(-(d*(x-s)))+f` equals `rate` at x = s (exp(0) = 1), stays strictly above f when rate > f, and from s on never exceeds rate when d ≥ 0 and f ≤ rate |
| `Numeric.RelaxDecreasing` | src/utils/core/trainercore.py:287 | with d > 0 and rate > f the relaxation is strictly decreasing |
| `LrSchedule.LastRate` | src/utils/core/trainercore.py:275-285 | the late-bound `rate` is bound iff some stage is flat or decay, and then equals the rate (own or base) of the last such stage, with only linear stages after it |
| `LrSchedule.Compile` | src/utils/core/trainercore.py:253-264 | one condition per stage in list order; stage i's condition holds exactly when start ≤ x and, unless i = len-1, x < start + n_epochs; the result is callable whenever every linear stage has positive length |
| `LrSchedule.BuildSchedule` | src/utils/core/trainercore.py:250-290 | the source's loop (append condition and function per stage, overwrite `rate` at flat/decay stages) yields exactly the compiled schedule |
| `LrSchedule.LastHolding` | src/utils/core/trainercore.py:292-294 | the index piecewise selects: none iff no condition holds, otherwise a holding condition after which none holds |
| `LrSchedule.Evaluate` | src/utils/core/trainercore.py:292-294 | numpy.piecewise on a scalar: 0 when no condition holds, otherwise the function of the last holding condition, so a later overlapping stage overrides an earlier one |
| `LrSchedule.PiecewiseLoop` | src/utils/core/trainercore.py:292-294 | piecewise's start-at-zero-and-overwrite loop agrees with the last-match reading |
| `LrSchedule.StageValue` | src/utils/core/trainercore.py:267-279 | a linear stage gives initial_rate at or before start, final_rate (base rate when absent) at or after start+n_epochs, lies on the line through (start, initial_rate) and (start+n_epochs, final_rate) in between, and stays between the two rates; a flat stage gives the late-bound rate for every x |
| `LrSchedule.DecayStage` | src/utils/core/trainercore.py:281-287 | a decay stage gives the late-bound rate at its start, stays above floor when that rate exceeds it, and, when decay_rate ≥ 0 and floor ≤ that rate, does not exceed that rate from its start on |
| `LrSchedule.DecayStageDecreasing` | src/utils/core/trainercore.py:281-287 | a decay stage with positive decay_rate and late-bound rate above floor is strictly decreasing |
| `LrSchedule.LastStageCatchesAll` | src/utils/core/trainercore.py:259-261 | the last stage is selected for every x at or past its start, whatever its n_epochs |
| `LrSchedule.Progress` | src/utils/core/trainercore.py:293 | progress × train_data_size = iteration × minibatch_size (samples seen, in epochs), and progress is non-negative |
| `LrSchedule.ProgressEpochs` | src/utils/core/trainercore.py:292-294 | progress is monotone in the iteration count and equals k exactly after k epochs' worth of samples |
| `LrSchedule.LrCalculator` | src/utils/core/trainercore.py:292-294 | conditions and functions see the same progress: 0 when no stage interval covers it, else the value of the last covering stage's function at that progress |
| `DefaultSchedule.Coverage` | src/utils/core/trainercore.py:200-220 | the default stages cover every progress ≥ 0 exactly once (warm-up below 1, flat below 21, decay from 21) and none below 0 |
| `DefaultSchedule.Selection` | src/utils/core/trainercore.py:200-220 | progress 0 selects warm-up, 1 selects flat, 21 selects decay |
| `DefaultSchedule.DefaultCompiled` | src/utils/core/trainercore.py:200-220 | the compiled default schedule is callable, its late-bound rate is the base rate, and its functions are a ramp from 1e-5 to the base rate over [0, 1], a constant and a relaxation from 21 toward 1e-5 with decay rate 0.999 |
| `DefaultSchedule.WarmUpRates` | src/utils/core/trainercore.py:200-207 | for progress in [0, 1) the default schedule gives 1e-5 + (base − 1e-5)·progress: 1e-5 at 0 and the mean of 1e-5 and the base rate at 0.5 |
| `DefaultSchedule.FlatRate` | src/utils/core/trainercore.py:208-212 | for progress in [1, 21) the default schedule gives the base rate |
| `DefaultSchedule.DecayRates` | src/utils/core/trainercore.py:213-219 | the default schedule gives the base rate at progress 21 and, when the base rate exceeds 1e-5, a rate in (1e-5, base] from 21 on |
| `DefaultSchedule.Scenario` | src/utils/core/trainercore.py:197-294 | with 0.01 epochs per iteration and base rate 1e-3: iteration 0 → 1e-5, 100 → 1e-3, 2100 → 1e-3 |
| `DefaultSchedule.OpenEndedSecondStage` | src/utils/core/trainercore.py:259-264 | a two-stage schedule selects the second stage at progress 1000 and returns its rate |
| `LateBinding.IntendedStageValue` | src/utils/core/trainercore.py:276-287 | corrected stage function: a flat stage returns its own rate, a decay stage starts at its own rate, linear stages are unchanged |
| `LateBinding.FlatReadsLaterDecayRate` | src/utils/core/trainercore.py:276-287 | a flat stage at 1e-3 followed by a decay stage at 1e-4 makes lr_calculator return 1e-4 inside the flat stage, where its own rate is 1e-3 |
| `LateBinding.LateBindingHarmless` | src/utils/core/trainercore.py:276-287 | when all flat and decay stages assign the same rate, each stage's as-written value equals its intended value |
| `LateBinding.DefaultUnaffected` | src/utils/core/trainercore.py:200-220 | on the default schedule the late binding is unobservable |

## Findings

| source | as written | input that shows it | evidently intended | confidence | as-written member | corrected member |
|---|---|---|---|---|---|---|
| src/utils/core/trainercore.py:279-287 | `lambda x : rate` and the decay lambda read the loop's `rate` variable at call time, so every flat/decay stage uses the last flat/decay stage's rate | stages `flat` (start 0, 10 epochs, rate 1e-3) then `decay` (start 10, rate 1e-4); iteration 5 with one sample per batch and per epoch gives 1e-4 | bind `rate` by default argument like `start`, `decay` and `floor`, so each stage uses its own rate | medium; not executed | `LateBinding.FlatReadsLaterDecayRate` | `LateBinding.IntendedStageValue` |

The rest of the model keeps the as-written binding (`LastRate`), because that is what
the program computes. `LateBinding.LateBindingHarmless` shows that the two readings
agree whenever all flat and decay stages assign the same rate.
`LateBinding.DefaultUnaffected` shows the same for the default schedule.

## Left out

- Trainer construction and `_initialize_io` (trainercore.py:30-98): fetcher construction, file checks and sample preparation are I/O. `train_data_size` is a positive input.
- `batch_process` (trainercore.py:150-193): a wall-clock timing loop over subclass step hooks.
- `log` (trainercore.py:110-129): string formatting and logging.
- The no-op hooks `init_network`, `print_network_info`, `set_compute_parameters`, `on_step_end`, `on_epoch_end`, `metrics`, `stop` and `close_savers`: they have no behaviour to state.
- The commented-out one-cycle schedule (trainercore.py:223-247).
- Floating point: all arithmetic is over `real`, so rounding in the progress division and in numpy is not modelled.
- The value of `exp`: only `exp(0) = 1`, positivity and strict monotonicity are assumed (`Numeric.ExpLike`).
- Python failures: a `KeyError` on a missing `initial_rate`, `decay_rate` or `floor` cannot be expressed. Neither can an unknown `function` name: on the first stage it raises `UnboundLocalError` when `function` is appended, and on a later stage it silently reuses the previous stage's function. The `Shape` datatype rules out both.
- `LrSchedule.Evaluate`: an empty schedule makes `numpy.piecewise` fail with an `IndexError` when it reads the first condition. The model excludes that call with `|conds| > 0` rather than modelling the exception. `Compile` itself accepts an empty list, as the source does.
- `LrSchedule.StageValue`: every linear stage must have `n_epochs > 0` (`WellFormed`). This is the model's own simplification, so that `Interp` always has an increasing domain. The source never calls the function of a non-last linear stage whose length is ≤ 0, because its condition `x < s + l` cannot hold together with `x >= s`. A last linear stage of length 0 would make `numpy.interp` give the final rate for x ≥ start. Neither case is modelled.
- `LrSchedule.DecayStage`: convergence of a decay stage to `floor` as progress grows is not stated, because it needs the limit of `exp` at minus infinity, which is not assumed.

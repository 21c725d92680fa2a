/** The flat and decay rate functions read the shared `rate` variable when
    they are called, not when they are built, so every flat or decay stage
    uses the rate of the LAST flat or decay stage in the list. This module
    states the evidently intended per-stage reading, exhibits a schedule on
    which the two differ, and shows when they agree. */
module LateBinding {
  import opened Wrappers
  import opened Numeric
  import opened LrSchedule
  import opened DefaultSchedule

  /** Stage i's rate function with its own rate bound at build time, as the
      start, decay rate and floor already are. */
  function IntendedStageValue(stages: seq<Stage>, base: real, exp: real -> real, i: int, x: real): (r: real)
    requires WellFormed(stages) && 0 <= i < |stages|
    ensures stages[i].shape.Flat? ==> r == AssignedRate(stages[i].shape, base)
    ensures stages[i].shape.Decay? && ExpLike(exp) && x == stages[i].start
      ==> r == AssignedRate(stages[i].shape, base)
    ensures stages[i].shape.Linear? ==> r == StageValue(stages, base, exp, i, x)
  {
    var st := stages[i];
    if st.shape.Linear? then StageValue(stages, base, exp, i, x)
    else
      var own := AssignedRate(st.shape, base);
      Apply(FnFor(st, base), Some(own), exp, x)
  }

  /** A flat stage at 1e-3 followed by a decay stage starting at 1e-4: at
      iteration 5 (progress 5, inside the flat stage) the schedule returns
      1e-4, where the flat stage's own rate is 1e-3. */
  lemma FlatReadsLaterDecayRate(base: real, exp: real -> real)
    ensures var stages := [Stage(0.0, 10.0, Flat(Some(0.001))), Stage(10.0, 5.0, Decay(0.5, 0.00001, Some(0.0001)))];
      && LrCalculator(stages, base, exp, 1, 1, 5) == 0.0001
      && IntendedStageValue(stages, base, exp, 0, 5.0) == 0.001
  {
    var stages := [Stage(0.0, 10.0, Flat(Some(0.001))), Stage(10.0, 5.0, Decay(0.5, 0.00001, Some(0.0001)))];
    ProgressEpochs(5, 5, 1, 1, 5);
    assert LastRate(stages, base) == Some(0.0001);
    assert StageHolds(stages, 0, 5.0) && !StageHolds(stages, 1, 5.0);
  }

  /** Every flat or decay stage assigns the same rate. */
  predicate UniformRates(stages: seq<Stage>, base: real) {
    forall i, j :: 0 <= i < |stages| && 0 <= j < |stages| && !stages[i].shape.Linear? && !stages[j].shape.Linear?
      ==> AssignedRate(stages[i].shape, base) == AssignedRate(stages[j].shape, base)
  }

  /** When all flat and decay stages assign the same rate, late binding is
      unobservable: every stage behaves as intended at every x. */
  lemma LateBindingHarmless(stages: seq<Stage>, base: real, exp: real -> real, i: int, x: real)
    requires WellFormed(stages) && 0 <= i < |stages| && UniformRates(stages, base)
    ensures StageValue(stages, base, exp, i, x) == IntendedStageValue(stages, base, exp, i, x)
  {
    if !stages[i].shape.Linear? {
      var j :| 0 <= j < |stages| && !stages[j].shape.Linear?
        && LastRate(stages, base).value == AssignedRate(stages[j].shape, base);
      assert LastRate(stages, base).value == AssignedRate(stages[i].shape, base);
    }
  }

  /** The default schedule has one flat and one decay stage, both falling
      back to the base rate, so it is unaffected. */
  lemma DefaultUnaffected(base: real, exp: real -> real, i: int, x: real)
    requires 0 <= i < |Default()|
    ensures StageValue(Default(), base, exp, i, x) == IntendedStageValue(Default(), base, exp, i, x)
  {
    assert WellFormed(Default());
    assert UniformRates(Default(), base);
    LateBindingHarmless(Default(), base, exp, i, x);
  }
}

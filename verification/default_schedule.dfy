/** The schedule used when none is supplied: a one-epoch linear warm-up from
    1e-5 to the base rate, twenty flat epochs, then exponential decay toward
    1e-5 with decay rate 0.999, open-ended from epoch 21 on. */
module DefaultSchedule {
  import opened Wrappers
  import opened Numeric
  import opened LrSchedule

  function Default(): seq<Stage> {
    [ Stage(0.0, 1.0, Linear(0.00001, None)),
      Stage(1.0, 20.0, Flat(None)),
      Stage(21.0, 4.0, Decay(0.999, 0.00001, None)) ]
  }

  /** The stage the default schedule is in at progress x >= 0. */
  function StageAt(x: real): nat {
    if x < 1.0 then 0 else if x < 21.0 then 1 else 2
  }

  /** The default stages tile [0, +inf) without overlap: at every
      non-negative progress exactly one stage's condition holds, and before
      zero none does. */
  lemma Coverage(x: real)
    ensures 0.0 <= x ==>
      && StageHolds(Default(), StageAt(x), x)
      && forall j :: 0 <= j < |Default()| && j != StageAt(x) ==> !StageHolds(Default(), j, x)
    ensures x < 0.0 ==> forall j :: 0 <= j < |Default()| ==> !StageHolds(Default(), j, x)
  {
  }

  /** Progress 0 selects the warm-up, 1 the flat stage, 21 the decay. */
  lemma Selection(base: real)
    ensures LastHolding(Compile(Default(), base).conds, 0.0) == Some(0)
    ensures LastHolding(Compile(Default(), base).conds, 1.0) == Some(1)
    ensures LastHolding(Compile(Default(), base).conds, 21.0) == Some(2)
  {
    var conds := Compile(Default(), base).conds;
    assert Holds(conds[0], 0.0) && !Holds(conds[1], 0.0) && !Holds(conds[2], 0.0);
    assert Holds(conds[1], 1.0) && !Holds(conds[2], 1.0);
    assert Holds(conds[2], 21.0);
  }

  /** The compiled default schedule: a warm-up ramp from 1e-5 to the base
      rate, a flat piece and a decay piece, with the late-bound rate equal to
      the base rate because neither the flat nor the decay stage names one. */
  lemma DefaultCompiled(base: real)
    ensures WellFormed(Default())
    ensures Compile(Default(), base).Valid()
    ensures Compile(Default(), base).rate == Some(base)
    ensures Compile(Default(), base).fns
      == [InterpFn(0.0, 1.0, 0.00001, base), ConstFn, RelaxFn(21.0, 0.999, 0.00001)]
  {
    assert WellFormed(Default());
    assert LastRate(Default(), base) == Some(base);
  }

  /** During the warm-up the default schedule follows the line from 1e-5 at
      progress 0 to the base rate at progress 1; at 0.5 it is the mean. */
  lemma WarmUpRates(base: real, exp: real -> real, x: real)
    ensures Evaluate(Compile(Default(), base), exp, 0.0) == 0.00001
    ensures Evaluate(Compile(Default(), base), exp, 0.5) == (0.00001 + base) / 2.0
    ensures 0.0 <= x < 1.0 ==> Evaluate(Compile(Default(), base), exp, x) - 0.00001 == (base - 0.00001) * x
  {
    DefaultCompiled(base);
    var s := Compile(Default(), base);
    Selection(base);
    Coverage(0.5);
    LastHoldingUnique(s.conds, 0.5, 0);
    InterpMidpoint(0.0, 1.0, 0.00001, base);
    if 0.0 <= x < 1.0 {
      Coverage(x);
      LastHoldingUnique(s.conds, x, 0);
    }
  }

  /** Throughout the flat stage, progress in [1, 21), the default schedule
      gives the base rate. */
  lemma FlatRate(base: real, exp: real -> real, x: real)
    ensures 1.0 <= x < 21.0 ==> Evaluate(Compile(Default(), base), exp, x) == base
  {
    DefaultCompiled(base);
    if 1.0 <= x < 21.0 {
      Coverage(x);
      LastHoldingUnique(Compile(Default(), base).conds, x, 1);
    }
  }

  /** The decay stage starts at the base rate at progress 21 and from there
      on stays in (1e-5, base] when the base rate exceeds the floor 1e-5. */
  lemma DecayRates(base: real, exp: real -> real, x: real)
    requires ExpLike(exp)
    ensures Evaluate(Compile(Default(), base), exp, 21.0) == base
    ensures 21.0 <= x && 0.00001 < base ==>
      0.00001 < Evaluate(Compile(Default(), base), exp, x) <= base
  {
    DefaultCompiled(base);
    LastStageCatchesAll(Default(), base, 21.0);
    RelaxBounds(x, 21.0, 0.999, 0.00001, base, exp);
    if 21.0 <= x {
      LastStageCatchesAll(Default(), base, x);
    }
  }

  /** The worked scenario: one sample per minibatch and 100 samples per
      epoch (0.01 epochs per iteration) with base rate 1e-3 gives 1e-5 at
      iteration 0, 1e-3 at iteration 100 and 1e-3 at iteration 2100. */
  lemma Scenario(exp: real -> real)
    requires ExpLike(exp)
    ensures LrCalculator(Default(), 0.001, exp, 1, 100, 0) == 0.00001
    ensures LrCalculator(Default(), 0.001, exp, 1, 100, 100) == 0.001
    ensures LrCalculator(Default(), 0.001, exp, 1, 100, 2100) == 0.001
  {
    ProgressEpochs(0, 0, 1, 100, 0);
    ProgressEpochs(100, 100, 1, 100, 1);
    ProgressEpochs(2100, 2100, 1, 100, 21);
    WarmUpRates(0.001, exp, 0.0);
    FlatRate(0.001, exp, 1.0);
    DecayRates(0.001, exp, 21.0);
  }

  /** A two-stage schedule whose second stage starts where the first ends
      still selects the second stage far past its declared length. */
  lemma OpenEndedSecondStage(base: real, rate: real, exp: real -> real)
    ensures var stages := [Stage(0.0, 1.0, Linear(0.00001, None)), Stage(1.0, 1.0, Flat(Some(rate)))];
      && LastHolding(Compile(stages, base).conds, 1000.0) == Some(1)
      && Evaluate(Compile(stages, base), exp, 1000.0) == rate
  {
    var stages := [Stage(0.0, 1.0, Linear(0.00001, None)), Stage(1.0, 1.0, Flat(Some(rate)))];
    assert WellFormed(stages);
    LastStageCatchesAll(stages, base, 1000.0);
    assert LastRate(stages, base) == Some(rate);
  }
}

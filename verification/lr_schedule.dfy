/** The learning-rate schedule compiler of the trainer core: an ordered list
    of stages is compiled into one condition and one rate function per stage,
    and the compiled schedule is evaluated the way numpy.piecewise evaluates
    a condition list against a function list, at the epoch-fractional
    progress reached after a given number of iterations. */
module LrSchedule {
  import opened Wrappers
  import opened Numeric

  /** The rate-shaping part of a stage, one variant per recognised
      'function' name. Required keys are plain fields, optional keys are
      `Option`s. */
  datatype Shape =
    | Linear(initialRate: real, finalRate: Option<real>)
    | Flat(rate: Option<real>)
    | Decay(decayRate: real, floor: real, rate: Option<real>)

  /** One stage of the schedule; a schedule is a `seq<Stage>` in the order
      the stage mapping was written. Stage names only fix that order. */
  datatype Stage = Stage(start: real, nEpochs: real, shape: Shape)

  /** A compiled stage condition: half-open [lo, lo + len) or, for the last
      stage, open-ended [lo, +inf). */
  datatype Condition = Bounded(lo: real, len: real) | OpenEnded(lo: real)

  /** A compiled stage rate function, holding exactly what the source's
      lambda binds by default argument. `ConstFn` binds nothing and `RelaxFn`
      does not bind the rate: both read the late-bound rate at call time. */
  datatype RateFn =
    | InterpFn(lo: real, len: real, initialRate: real, finalRate: real)
    | ConstFn
    | RelaxFn(lo: real, decayRate: real, floor: real)

  /** The compiled schedule: the condition list, the function list and the
      value the loop left in the shared `rate` variable (None if no flat or
      decay stage ever assigned it). */
  datatype Schedule = Schedule(conds: seq<Condition>, fns: seq<RateFn>, rate: Option<real>) {

    /** Every function can be called: interpolation domains are increasing,
        and the late-bound rate is bound whenever a function reads it. */
    predicate Valid() {
      && |conds| == |fns|
      && (forall i :: 0 <= i < |fns| && fns[i].InterpFn? ==> fns[i].len > 0.0)
      && (forall i :: 0 <= i < |fns| && !fns[i].InterpFn? ==> rate.Some?)
    }
  }

  /** numpy.interp needs increasing sample points, so a linear stage must have
      a positive length. No other stage divides by its length. */
  predicate WellFormed(stages: seq<Stage>) {
    forall i :: 0 <= i < |stages| && stages[i].shape.Linear? ==> stages[i].nEpochs > 0.0
  }

  /** Reference reading of a stage's interval: every stage starts at its
      `start`; all but the last end before `start + nEpochs`; the last one is
      open-ended whatever its length. */
  predicate StageHolds(stages: seq<Stage>, i: int, x: real)
    requires 0 <= i < |stages|
  {
    stages[i].start <= x && (i == |stages| - 1 || x < stages[i].start + stages[i].nEpochs)
  }

  predicate Holds(c: Condition, x: real) {
    match c
    case Bounded(lo, len) => x >= lo && x < lo + len
    case OpenEnded(lo) => x >= lo
  }

  /** The condition built for stage number i of n. */
  function CondFor(i: nat, n: nat, st: Stage): Condition {
    if i + 1 == n then OpenEnded(st.start) else Bounded(st.start, st.nEpochs)
  }

  /** The function built for a stage; a missing final rate falls back to the
      base learning rate. */
  function FnFor(st: Stage, base: real): RateFn {
    match st.shape
    case Linear(initialRate, finalRate) => InterpFn(st.start, st.nEpochs, initialRate, finalRate.GetOr(base))
    case Flat(_) => ConstFn
    case Decay(decayRate, floor, _) => RelaxFn(st.start, decayRate, floor)
  }

  /** The rate a flat or decay stage assigns to the shared `rate` variable. */
  function AssignedRate(shape: Shape, base: real): real
    requires !shape.Linear?
  {
    shape.rate.GetOr(base)
  }

  /** The value of the shared `rate` variable once the compile loop is over:
      the rate assigned by the last flat or decay stage in the list. */
  function LastRate(stages: seq<Stage>, base: real): (r: Option<real>)
    ensures r.Some? <==> exists i :: 0 <= i < |stages| && !stages[i].shape.Linear?
    ensures r.Some? ==>
      exists j :: (&& 0 <= j < |stages| && !stages[j].shape.Linear?
                   && r.value == AssignedRate(stages[j].shape, base)
                   && forall k :: j < k < |stages| ==> stages[k].shape.Linear?)
    decreases |stages|
  {
    if |stages| == 0 then None
    else
      var last := stages[|stages| - 1];
      if last.shape.Linear? then
        var r := LastRate(stages[..|stages| - 1], base);
        assert forall i :: 0 <= i < |stages| - 1 ==> stages[..|stages| - 1][i] == stages[i];
        r
      else Some(AssignedRate(last.shape, base))
  }

  /** The compiled schedule: one condition and one function per stage, in
      stage order, and the late-bound rate. */
  function Compile(stages: seq<Stage>, base: real): (s: Schedule)
    ensures |s.conds| == |stages| && |s.fns| == |stages|
    ensures forall i, x :: 0 <= i < |stages| ==> (Holds(s.conds[i], x) <==> StageHolds(stages, i, x))
    ensures s.rate.Some? <==> exists i :: 0 <= i < |stages| && !stages[i].shape.Linear?
    ensures WellFormed(stages) ==> s.Valid()
  {
    Schedule(
      seq(|stages|, i requires 0 <= i < |stages| => CondFor(i, |stages|, stages[i])),
      seq(|stages|, i requires 0 <= i < |stages| => FnFor(stages[i], base)),
      LastRate(stages, base))
  }

  /** The compile loop as the source writes it: walk the stages in order,
      append a condition and a function for each, and overwrite the shared
      `rate` variable at every flat or decay stage. */
  method BuildSchedule(stages: seq<Stage>, base: real) returns (s: Schedule)
    ensures s == Compile(stages, base)
  {
    var conds: seq<Condition> := [];
    var fns: seq<RateFn> := [];
    var rate: Option<real> := None;
    for i := 0 to |stages|
      invariant |conds| == i && |fns| == i
      invariant forall j :: 0 <= j < i ==> conds[j] == CondFor(j, |stages|, stages[j])
      invariant forall j :: 0 <= j < i ==> fns[j] == FnFor(stages[j], base)
      invariant rate == LastRate(stages[..i], base)
    {
      var st := stages[i];
      var condition := if i + 1 == |stages| then OpenEnded(st.start) else Bounded(st.start, st.nEpochs);
      var fn: RateFn;
      match st.shape {
        case Linear(initialRate, finalRate) =>
          fn := InterpFn(st.start, st.nEpochs, initialRate, finalRate.GetOr(base));
        case Flat(r) =>
          rate := Some(r.GetOr(base));
          fn := ConstFn;
        case Decay(decayRate, floor, r) =>
          rate := Some(r.GetOr(base));
          fn := RelaxFn(st.start, decayRate, floor);
      }
      assert stages[..i + 1][..i] == stages[..i];
      assert stages[..i + 1][i] == st;
      assert rate == LastRate(stages[..i + 1], base);
      assert fn == FnFor(st, base);
      conds := conds + [condition];
      fns := fns + [fn];
    }
    assert stages[..|stages|] == stages;
    s := Schedule(conds, fns, rate);
  }

  /** Calling one compiled function at x, with the late-bound rate. */
  function Apply(f: RateFn, rate: Option<real>, exp: real -> real, x: real): real
    requires f.InterpFn? ==> f.len > 0.0
    requires !f.InterpFn? ==> rate.Some?
  {
    match f
    case InterpFn(lo, len, initialRate, finalRate) => Interp(x, lo, lo + len, initialRate, finalRate)
    case ConstFn => rate.value
    case RelaxFn(lo, decayRate, floor) => Relax(x, lo, decayRate, floor, rate.value, exp)
  }

  /** The index of the last condition that holds at x, if any. */
  function LastHolding(conds: seq<Condition>, x: real): (r: Option<nat>)
    ensures r.None? <==> forall i :: 0 <= i < |conds| ==> !Holds(conds[i], x)
    ensures r.Some? ==>
      (&& r.value < |conds| && Holds(conds[r.value], x)
       && forall j :: r.value < j < |conds| ==> !Holds(conds[j], x))
    decreases |conds|
  {
    if |conds| == 0 then None
    else if Holds(conds[|conds| - 1], x) then Some(|conds| - 1)
    else
      var r := LastHolding(conds[..|conds| - 1], x);
      assert forall i :: 0 <= i < |conds| - 1 ==> conds[..|conds| - 1][i] == conds[i];
      r
  }

  /** The value piecewise evaluation produces once `sel` is the selected
      stage: zero when no stage is selected. */
  function Outcome(s: Schedule, exp: real -> real, x: real, sel: Option<nat>): real
    requires s.Valid()
    requires sel.Some? ==> sel.value < |s.fns|
  {
    match sel
    case None => 0.0
    case Some(i) => Apply(s.fns[i], s.rate, exp, x)
  }

  /** numpy.piecewise over the compiled lists at the scalar x. numpy reads
      the first condition before anything else, so an empty schedule fails
      there; that call is excluded. */
  function Evaluate(s: Schedule, exp: real -> real, x: real): (r: real)
    requires s.Valid() && |s.conds| > 0
    ensures (forall i :: 0 <= i < |s.conds| ==> !Holds(s.conds[i], x)) ==> r == 0.0
    ensures forall i ::
      (&& 0 <= i < |s.conds| && Holds(s.conds[i], x)
       && (forall j :: i < j < |s.conds| ==> !Holds(s.conds[j], x)))
      ==> r == Apply(s.fns[i], s.rate, exp, x)
  {
    var sel := LastHolding(s.conds, x);
    assert forall i ::
      (&& 0 <= i < |s.conds| && Holds(s.conds[i], x)
       && (forall j :: i < j < |s.conds| ==> !Holds(s.conds[j], x)))
      ==> sel == Some(i) by {
      forall i | 0 <= i < |s.conds| && Holds(s.conds[i], x)
        && (forall j :: i < j < |s.conds| ==> !Holds(s.conds[j], x))
      {
        LastHoldingUnique(s.conds, x, i);
      }
    }
    Outcome(s, exp, x, sel)
  }

  /** A holding condition with none holding after it is the one selected. */
  lemma LastHoldingUnique(conds: seq<Condition>, x: real, i: int)
    requires 0 <= i < |conds| && Holds(conds[i], x)
    requires forall j :: i < j < |conds| ==> !Holds(conds[j], x)
    ensures LastHolding(conds, x) == Some(i)
  {
  }

  /** numpy.piecewise's own loop: start from zero, then for every condition
      in list order that holds, overwrite the result with that piece's value. */
  method PiecewiseLoop(s: Schedule, exp: real -> real, x: real) returns (y: real)
    requires s.Valid() && |s.conds| > 0
    ensures y == Evaluate(s, exp, x)
  {
    y := 0.0;
    var k := 0;
    while k < |s.conds|
      invariant 0 <= k <= |s.conds|
      invariant y == Outcome(s, exp, x, LastHolding(s.conds[..k], x))
    {
      assert s.conds[..k + 1][..k] == s.conds[..k];
      if Holds(s.conds[k], x) {
        y := Apply(s.fns[k], s.rate, exp, x);
      }
      k := k + 1;
    }
    assert s.conds[..k] == s.conds;
  }

  /** The rate function of stage i, as the compiled schedule calls it. A
      linear stage interpolates between its own rates and clamps outside its
      domain; a flat stage returns the late-bound rate for every x. */
  function StageValue(stages: seq<Stage>, base: real, exp: real -> real, i: int, x: real): (r: real)
    requires WellFormed(stages) && 0 <= i < |stages|
    ensures stages[i].shape.Linear? ==>
      var st := stages[i];
      var final := st.shape.finalRate.GetOr(base);
      && (x <= st.start ==> r == st.shape.initialRate)
      && (st.start + st.nEpochs <= x ==> r == final)
      && (st.start <= x <= st.start + st.nEpochs
          ==> (r - st.shape.initialRate) * st.nEpochs == (final - st.shape.initialRate) * (x - st.start))
      && Between(r, st.shape.initialRate, final)
    ensures stages[i].shape.Flat? ==> Some(r) == LastRate(stages, base)
  {
    assert !stages[i].shape.Linear? ==> LastRate(stages, base).Some?;
    Apply(FnFor(stages[i], base), LastRate(stages, base), exp, x)
  }

  /** The epoch-fractional progress after `iteration` minibatches:
      iteration * (minibatchSize / trainDataSize). It is the number of
      samples seen measured in passes over the training set. */
  function Progress(iteration: nat, minibatchSize: nat, trainDataSize: nat): (p: real)
    requires trainDataSize > 0
    ensures p * (trainDataSize as real) == (iteration * minibatchSize) as real
    ensures 0.0 <= p
  {
    var ratio := (minibatchSize as real) / (trainDataSize as real);
    assert ratio * (trainDataSize as real) == minibatchSize as real;
    MulSign(iteration as real, ratio);
    iteration as real * ratio
  }

  /** The compiled `lr_calculator`: both the conditions and the selected
      stage function see the same progress value. No stage covering it gives
      zero; otherwise the last covering stage in list order decides. */
  function LrCalculator(stages: seq<Stage>, base: real, exp: real -> real,
                        minibatchSize: nat, trainDataSize: nat, iteration: nat): (r: real)
    requires |stages| > 0 && WellFormed(stages) && trainDataSize > 0
    ensures var p := Progress(iteration, minibatchSize, trainDataSize);
      (forall i :: 0 <= i < |stages| ==> !StageHolds(stages, i, p)) ==> r == 0.0
    ensures var p := Progress(iteration, minibatchSize, trainDataSize);
      forall i ::
        (&& 0 <= i < |stages| && StageHolds(stages, i, p)
         && (forall j :: i < j < |stages| ==> !StageHolds(stages, j, p)))
        ==> r == StageValue(stages, base, exp, i, p)
  {
    Evaluate(Compile(stages, base), exp, Progress(iteration, minibatchSize, trainDataSize))
  }

  /** A decay stage starts at the late-bound rate, stays above its floor when
      that rate is above it, and from its start on never exceeds that rate. */
  lemma DecayStage(stages: seq<Stage>, base: real, exp: real -> real, i: int, x: real)
    requires WellFormed(stages) && 0 <= i < |stages| && stages[i].shape.Decay? && ExpLike(exp)
    ensures LastRate(stages, base).Some?
    ensures var st, rate := stages[i], LastRate(stages, base).value;
      && StageValue(stages, base, exp, i, st.start) == rate
      && (st.shape.floor < rate ==> st.shape.floor < StageValue(stages, base, exp, i, x))
      && (0.0 <= st.shape.decayRate && st.start <= x && st.shape.floor <= rate
          ==> StageValue(stages, base, exp, i, x) <= rate)
  {
    var st := stages[i];
    assert LastRate(stages, base).Some?;
    RelaxBounds(x, st.start, st.shape.decayRate, st.shape.floor, LastRate(stages, base).value, exp);
  }

  /** With a positive decay rate and a late-bound rate above the floor, a
      decay stage strictly decreases. */
  lemma DecayStageDecreasing(stages: seq<Stage>, base: real, exp: real -> real, i: int, x: real, x': real)
    requires WellFormed(stages) && 0 <= i < |stages| && stages[i].shape.Decay? && ExpLike(exp)
    requires 0.0 < stages[i].shape.decayRate && x < x'
    requires LastRate(stages, base).Some? && stages[i].shape.floor < LastRate(stages, base).value
    ensures StageValue(stages, base, exp, i, x') < StageValue(stages, base, exp, i, x)
  {
    var st := stages[i];
    RelaxDecreasing(x, x', st.start, st.shape.decayRate, st.shape.floor, LastRate(stages, base).value, exp);
  }

  /** The last stage is selected for every x at or past its start, whatever
      its declared length and whatever earlier stages claim. */
  lemma LastStageCatchesAll(stages: seq<Stage>, base: real, x: real)
    requires |stages| > 0 && stages[|stages| - 1].start <= x
    ensures LastHolding(Compile(stages, base).conds, x) == Some(|stages| - 1)
  {
    assert StageHolds(stages, |stages| - 1, x);
  }

  /** Progress grows with the iteration count, and after a whole number of
      epochs' worth of samples it is exactly that number of epochs. */
  lemma ProgressEpochs(iteration: nat, iteration': nat, minibatchSize: nat, trainDataSize: nat, epochs: nat)
    requires trainDataSize > 0 && iteration <= iteration'
    ensures Progress(iteration, minibatchSize, trainDataSize) <= Progress(iteration', minibatchSize, trainDataSize)
    ensures iteration * minibatchSize == epochs * trainDataSize
      ==> Progress(iteration, minibatchSize, trainDataSize) == epochs as real
  {
    var p, p' := Progress(iteration, minibatchSize, trainDataSize), Progress(iteration', minibatchSize, trainDataSize);
    var d := trainDataSize as real;
    assert (p' - p) * d == ((iteration' - iteration) * minibatchSize) as real;
    MulSign((iteration' - iteration) as real, minibatchSize as real);
    if p' < p {
      MulStrict(d, p' - p, 0.0);
      assert false;
    }
    if iteration * minibatchSize == epochs * trainDataSize {
      assert p * d == (epochs as real) * d;
      CancelPositive(p, epochs as real, d);
    }
  }
}

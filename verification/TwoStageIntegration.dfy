// method_cubic and method_radau_II of utils/dae-intg.cc as functions: both run the same steps with their own
// coefficients, and every Newton iterate satisfies the discretization formulas of both stages.
module TwoStageIntegration {
  import opened Sums
  import opened LinearAlgebra
  import opened TwoStageCoefficients
  import opened Integration

  /** The new sample and the one at the intermediate time. */
  datatype Stages = Stages(full: State, mid: State)

  function PredictedSlopes(s: Slopes, dt: real, m1: State, m2: State): Vec
    requires dt != 0.0
  {
    i => PredictedSlope(s, dt, AsVec(m1.x)(i), AsVec(m1.xp)(i), AsVec(m2.x)(i), AsVec(m2.xp)(i))
  }

  function FullStates(c: TwoStage, dt: real, m1: State, xpz: Vec, xp: Vec): Vec {
    i => StepX(c, dt, AsVec(m1.x)(i), AsVec(m1.xp)(i), xpz(i), xp(i))
  }

  function MidStates(c: TwoStage, dt: real, m1: State, x: Vec, xp: Vec): Vec {
    i => StepXz(c, dt, x(i), AsVec(m1.x)(i), AsVec(m1.xp)(i), xp(i))
  }

  function Line(dt: real, x: real, v: real): real {
    x + dt * v
  }

  function MidLine(c: TwoStage, dt: real, x: real, v: real): real {
    x + dt * (1.0 + c.z) * v
  }

  function LineStates(dt: real, m1: State): Vec {
    i => Line(dt, AsVec(m1.x)(i), AsVec(m1.xp)(i))
  }

  function MidLineStates(c: TwoStage, dt: real, m1: State): Vec {
    i => MidLine(c, dt, AsVec(m1.x)(i), AsVec(m1.xp)(i))
  }

  function TwoStagePredict(n: nat, c: TwoStage, linear: bool, dt: real, m1: State, m2: State): Stages
    requires dt != 0.0
  {
    if linear then
      var xp := Indexed(n, AsVec(m1.xp));
      Stages(State(Indexed(n, LineStates(dt, m1)), xp), State(Indexed(n, MidLineStates(c, dt, m1)), xp))
    else
      var xp, xpz := PredictedSlopes(c.full, dt, m1, m2), PredictedSlopes(c.mid, dt, m1, m2);
      var x := FullStates(c, dt, m1, xpz, xp);
      Stages(State(Indexed(n, x), Indexed(n, xp)), State(Indexed(n, MidStates(c, dt, m1, x, xp)), Indexed(n, xpz)))
  }

  /** One vector of twice the length. */
  function Stacked(n: nat, a: Vec, b: Vec): Vec {
    i => if i < n then a(i) else b(i - n)
  }

  function TwoStageResidual(p: Problem, c: TwoStage, dt: real, t: real, s: Stages): Vec {
    Stacked(p.size, p.func(s.full.x, s.full.xp, t), p.func(s.mid.x, s.mid.xp, MidTime(c, dt, t)))
  }

  // the Newton coefficients of a step, as the source names them

  function J00(c: TwoStage, dt: real): real { c.j00 * dt }
  function J0z(c: TwoStage, dt: real): real { c.j0z * dt }
  function Jz0(c: TwoStage, dt: real): real { c.jz0 * dt }
  function Jzz(c: TwoStage, dt: real): real { c.jzz * dt }

  /** The four blocks of the Newton matrix. */
  function BlockJacobian(n: nat, c: TwoStage, dt: real, J0: Mat, JP0: Mat, Jz: Mat, JPz: Mat): Mat {
    (i, j) =>
      if i < n then
        if j < n then J00(c, dt) * J0(i, j) + JP0(i, j) else J0z(c, dt) * J0(i, j - n)
      else
        if j < n then Jz0(c, dt) * Jz(i - n, j) else Jzz(c, dt) * Jz(i - n, j - n) + JPz(i - n, j - n)
  }

  function TwoStageJacobian(p: Problem, c: TwoStage, dt: real, t: real, s: Stages): Mat {
    BlockJacobian(p.size, c, dt, p.gradX(s.full.x, s.full.xp, t), p.gradXP(s.full.x, s.full.xp, t),
      p.gradX(s.mid.x, s.mid.xp, MidTime(c, dt, t)), p.gradXP(s.mid.x, s.mid.xp, MidTime(c, dt, t)))
  }

  function TwoStageSolution(p: Problem, c: TwoStage, dt: real, t: real, s: Stages): Vec {
    p.solve(2 * p.size, TwoStageJacobian(p, c, dt, t, s), TwoStageResidual(p, c, dt, t, s))
  }

  /** What corrections d0 and dz of the two derivatives add to the two states. */
  function FullDelta(c: TwoStage, dt: real, d0: real, dz: real): real {
    dt * (c.wz * dz + c.w0 * d0)
  }

  function MidDelta(c: TwoStage, dt: real, d0: real, dz: real): real {
    dt * (c.m0 * (c.wz * dz + c.w0 * d0) + c.n0 * d0)
  }

  function FullCorrection(c: TwoStage, dt: real, x: Vec, d0: Vec, dz: Vec): Vec {
    i => x(i) + FullDelta(c, dt, d0(i), dz(i))
  }

  function MidCorrection(c: TwoStage, dt: real, xz: Vec, d0: Vec, dz: Vec): Vec {
    i => xz(i) + MidDelta(c, dt, d0(i), dz(i))
  }

  function SlopeCorrection(xp: Vec, d: Vec): Vec {
    i => xp(i) + d(i)
  }

  /** The second half of a stacked vector. */
  function Upper(n: nat, d: Vec): Vec {
    i => d(n + i)
  }

  function TwoStageCorrection(n: nat, c: TwoStage, dt: real, s: Stages, d: Vec): Stages {
    var dz := Upper(n, d);
    Stages(
      State(Indexed(n, FullCorrection(c, dt, AsVec(s.full.x), d, dz)),
            Indexed(n, SlopeCorrection(AsVec(s.full.xp), d))),
      State(Indexed(n, MidCorrection(c, dt, AsVec(s.mid.x), d, dz)), Indexed(n, SlopeCorrection(AsVec(s.mid.xp), dz))))
  }

  function TwoStageCorrect(p: Problem, c: TwoStage, dt: real, t: real): Stages -> Stages {
    (s: Stages) => TwoStageCorrection(p.size, c, dt, s, TwoStageSolution(p, c, dt, t, s))
  }

  function TwoStageTested(p: Problem, c: TwoStage, dt: real, t: real): Stages -> real {
    (s: Stages) => p.norm(2 * p.size, TwoStageResidual(p, c, dt, t, s))
  }

  function TwoStageNewton(
      p: Problem, c: TwoStage, linear: bool, dt: real, tol: real, maxiter: int, t: real, m1: State,
      m2: State): Outcome<Stages>
    requires dt != 0.0
  {
    Newton(TwoStageTested(p, c, dt, t), TwoStageCorrect(p, c, dt, t), tol, Allowed(maxiter),
      TwoStagePredict(p.size, c, linear, dt, m1, m2))
  }

  function FullOutcome(r: Outcome<Stages>): Outcome<State> {
    match r
    case Converged(v, e) => Converged(v.full, e)
    case NoConvergence => NoConvergence
  }

  function TwoStageStep(p: Problem, c: TwoStage, linear: bool, dt: real, tol: real, maxiter: int): Step
    requires dt != 0.0
  {
    (t: real, m1: State, m2: State) => FullOutcome(TwoStageNewton(p, c, linear, dt, tol, maxiter, t, m1, m2))
  }

  // ----- the discretization formulas

  ghost predicate OnStagesAt(c: TwoStage, dt: real, s: Stages, m1: State, i: int) {
    && AsVec(s.full.x)(i) == StepX(c, dt, AsVec(m1.x)(i), AsVec(m1.xp)(i), AsVec(s.mid.xp)(i), AsVec(s.full.xp)(i))
    && AsVec(s.mid.x)(i) == StepXz(c, dt, AsVec(s.full.x)(i), AsVec(m1.x)(i), AsVec(m1.xp)(i), AsVec(s.full.xp)(i))
  }

  /** The new and the intermediate state satisfy the formulas in terms of both derivatives and the last sample. */
  ghost predicate OnStages(n: nat, c: TwoStage, dt: real, s: Stages, m1: State) {
    Sized(n, s.full) && Sized(n, s.mid) && forall i :: 0 <= i < n ==> OnStagesAt(c, dt, s, m1, i)
  }

  /** Either predictor satisfies the formulas; the linear one because they are exact for straight lines. */
  lemma PredictOnStages(n: nat, c: TwoStage, linear: bool, dt: real, m1: State, m2: State)
    requires dt != 0.0 && Consistent(c)
    ensures OnStages(n, c, dt, TwoStagePredict(n, c, linear, dt, m1, m2), m1)
  {
  }

  /** A correction keeps both formulas, whatever the solution of the linear system is. */
  lemma CorrectionOnStages(n: nat, c: TwoStage, dt: real, s: Stages, d: Vec, m1: State)
    requires OnStages(n, c, dt, s, m1)
    ensures OnStages(n, c, dt, TwoStageCorrection(n, c, dt, s, d), m1)
  {
    var s' := TwoStageCorrection(n, c, dt, s, d);
    assert Sized(n, s'.full) && Sized(n, s'.mid);
    hide StepX, StepXz, FullDelta, MidDelta, TwoStageCorrection, AsVec;
    forall i | 0 <= i < n
      ensures OnStagesAt(c, dt, s', m1, i)
    {
      assert OnStagesAt(c, dt, s, m1, i);
      CorrectedValues(n, c, dt, s, d, i);
      StepShifts(c, dt, AsVec(s.full.x)(i), AsVec(m1.x)(i), AsVec(m1.xp)(i), AsVec(s.mid.xp)(i), AsVec(s.full.xp)(i),
                 d(i), Upper(n, d)(i));
    }
  }

  lemma CorrectedValues(n: nat, c: TwoStage, dt: real, s: Stages, d: Vec, i: int)
    requires 0 <= i < n
    ensures var s' := TwoStageCorrection(n, c, dt, s, d);
      && AsVec(s'.full.x)(i) == AsVec(s.full.x)(i) + FullDelta(c, dt, d(i), Upper(n, d)(i))
      && AsVec(s'.mid.x)(i) == AsVec(s.mid.x)(i) + MidDelta(c, dt, d(i), Upper(n, d)(i))
      && AsVec(s'.full.xp)(i) == AsVec(s.full.xp)(i) + d(i)
      && AsVec(s'.mid.xp)(i) == AsVec(s.mid.xp)(i) + Upper(n, d)(i)
  {
  }

  lemma StepShifts(c: TwoStage, dt: real, x: real, xm1: real, xpm1: real, xpz: real, xp: real, d0: real, dz: real)
    ensures StepX(c, dt, xm1, xpm1, xpz + dz, xp + d0) == StepX(c, dt, xm1, xpm1, xpz, xp) + FullDelta(c, dt, d0, dz)
    ensures StepXz(c, dt, x + FullDelta(c, dt, d0, dz), xm1, xpm1, xp + d0)
         == StepXz(c, dt, x, xm1, xpm1, xp) + MidDelta(c, dt, d0, dz)
  {
  }

  /** Every Newton iterate satisfies the formulas. */
  lemma {:induction false} IterateOnStages(p: Problem, c: TwoStage, dt: real, t: real, s: Stages, m1: State, k: nat)
    requires OnStages(p.size, c, dt, s, m1)
    ensures OnStages(p.size, c, dt, Iterate(TwoStageCorrect(p, c, dt, t), s, k), m1)
    decreases k
  {
    if k > 0 {
      assert TwoStageCorrect(p, c, dt, t)(s) == TwoStageCorrection(p.size, c, dt, s, TwoStageSolution(p, c, dt, t, s));
      hide OnStages, TwoStageCorrection, TwoStageSolution, TwoStageCorrect;
      CorrectionOnStages(p.size, c, dt, s, TwoStageSolution(p, c, dt, t, s), m1);
      IterateOnStages(p, c, dt, t, TwoStageCorrect(p, c, dt, t)(s), m1, k - 1);
    }
  }

  /** r holds the residual at time t and after it the one at the intermediate time tz. */
  ghost predicate BothResiduals(p: Problem, t: real, tz: real, s: Stages, r: Vec) {
    forall i :: 0 <= i < p.size ==> BothResidualsAt(p, t, tz, s, r, i)
  }

  ghost predicate BothResidualsAt(p: Problem, t: real, tz: real, s: Stages, r: Vec, i: int) {
    r(i) == p.func(s.full.x, s.full.xp, t)(i) && r(p.size + i) == p.func(s.mid.x, s.mid.xp, tz)(i)
  }

  /** e is the norm of such a vector. */
  ghost predicate NormOfBoth(p: Problem, t: real, tz: real, s: Stages, e: real) {
    exists r: Vec :: BothResiduals(p, t, tz, s, r) && e == p.norm(2 * p.size, r)
  }

  lemma MidTimeIs(c: TwoStage, dt: real, t: real)
    ensures MidTime(c, dt, t) == t + c.z * dt
  {
  }

  lemma TestIsNormOfBoth(p: Problem, c: TwoStage, dt: real, t: real, s: Stages)
    ensures NormOfBoth(p, t, MidTime(c, dt, t), s, TwoStageTested(p, c, dt, t)(s))
  {
    hide MidTime;
    var r := TwoStageResidual(p, c, dt, t, s);
    assert forall i :: 0 <= i < p.size ==> BothResidualsAt(p, t, MidTime(c, dt, t), s, r, i);
    assert BothResiduals(p, t, MidTime(c, dt, t), s, r);
  }

  /** So does every accepted step, for either predictor, and the norm of its residuals is below the tolerance. */
  lemma TwoStageStepOnFormulas(
      p: Problem, c: TwoStage, linear: bool, dt: real, tol: real, maxiter: int, t: real, m1: State, m2: State)
    requires dt != 0.0 && Consistent(c)
    ensures var r := TwoStageNewton(p, c, linear, dt, tol, maxiter, t, m1, m2);
      r.Converged? ==>
        OnStages(p.size, c, dt, r.value, m1) && NormOfBoth(p, t, MidTime(c, dt, t), r.value, r.test) && r.test < tol
    ensures MidTime(c, dt, t) == t + c.z * dt
  {
    MidTimeIs(c, dt, t);
    hide OnStages, TwoStagePredict, TwoStageCorrect, TwoStageNewton, Consistent, NormOfBoth, TwoStageTested, MidTime;
    var s := TwoStagePredict(p.size, c, linear, dt, m1, m2);
    PredictOnStages(p.size, c, linear, dt, m1, m2);
    TwoStageStepIsFirst(p, c, linear, dt, tol, maxiter, t, m1, m2);
    var r := TwoStageNewton(p, c, linear, dt, tol, maxiter, t, m1, m2);
    if r.Converged? {
      var k: nat :| (k == 0 || k <= maxiter) && r.value == Iterate(TwoStageCorrect(p, c, dt, t), s, k);
      IterateOnStages(p, c, dt, t, s, m1, k);
    }
  }

  /** It is the first of the prediction and its corrections, at most maxiter of them, for which that norm is below the
      tolerance; without one the step fails. */
  lemma TwoStageStepIsFirst(
      p: Problem, c: TwoStage, linear: bool, dt: real, tol: real, maxiter: int, t: real, m1: State, m2: State)
    requires dt != 0.0
    ensures var s, correct := TwoStagePredict(p.size, c, linear, dt, m1, m2), TwoStageCorrect(p, c, dt, t);
      match TwoStageNewton(p, c, linear, dt, tol, maxiter, t, m1, m2)
      case NoConvergence => forall k: nat :: k == 0 || k <= maxiter ==> FailsAt(p, c, dt, t, tol, correct, s, k)
      case Converged(v, e) =>
        && e < tol && NormOfBoth(p, t, MidTime(c, dt, t), v, e)
        && exists k: nat :: (k == 0 || k <= maxiter) && v == Iterate(correct, s, k) &&
                            forall j: nat :: j < k ==> FailsAt(p, c, dt, t, tol, correct, s, j)
  {
    hide TwoStagePredict, TwoStageCorrect, NormOfBoth, TwoStageTested, MidTime;
    var s, test, correct := TwoStagePredict(p.size, c, linear, dt, m1, m2), TwoStageTested(p, c, dt, t),
      TwoStageCorrect(p, c, dt, t);
    NewtonFindsFirst(test, correct, tol, Allowed(maxiter), s);
    forall k: nat
      ensures NormOfBoth(p, t, MidTime(c, dt, t), Iterate(correct, s, k), test(Iterate(correct, s, k)))
      ensures test(Iterate(correct, s, k)) >= tol ==> FailsAt(p, c, dt, t, tol, correct, s, k)
    {
      TestIsNormOfBoth(p, c, dt, t, Iterate(correct, s, k));
    }
  }

  /** The norm of both residuals of iterate k is not below the tolerance. */
  ghost predicate FailsAt(p: Problem, c: TwoStage, dt: real, t: real, tol: real, correct: Stages -> Stages, s: Stages,
                          k: nat) {
    exists e :: NormOfBoth(p, t, MidTime(c, dt, t), Iterate(correct, s, k), e) && e >= tol
  }

  /** The formulas hold of some intermediate sample, and the norm of both residuals is below the tolerance. */
  ghost predicate OnSomeStages(p: Problem, c: TwoStage, dt: real, tol: real, o: Output, m1: State) {
    exists mid: State :: OnStages(p.size, c, dt, Stages(o.s, mid), m1)
      && NormOfBoth(p, o.t, MidTime(c, dt, o.t), Stages(o.s, mid), o.test) && o.test < tol
  }

  /** A norm is no smaller than any entry. */
  ghost predicate NormBounds(p: Problem) {
    forall n: nat, r: Vec, i: nat :: i < n ==> -p.norm(n, r) <= r(i) <= p.norm(n, r)
  }

  /** With such a norm every entry of both residuals of an accepted step is below the tolerance. */
  lemma ResidualsBelow(
      p: Problem, c: TwoStage, linear: bool, dt: real, tol: real, maxiter: int, t: real, m1: State, m2: State, i: int)
    requires dt != 0.0 && NormBounds(p) && 0 <= i < p.size
    ensures var r := TwoStageNewton(p, c, linear, dt, tol, maxiter, t, m1, m2);
      r.Converged? ==> var s := r.value;
        && -tol < p.func(s.full.x, s.full.xp, t)(i) < tol
        && -tol < p.func(s.mid.x, s.mid.xp, MidTime(c, dt, t))(i) < tol
  {
    hide TwoStagePredict, TwoStageCorrect, TwoStageNewton, MidTime;
    TwoStageStepIsFirst(p, c, linear, dt, tol, maxiter, t, m1, m2);
    var r := TwoStageNewton(p, c, linear, dt, tol, maxiter, t, m1, m2);
    if r.Converged? {
      BothBelow(p, t, MidTime(c, dt, t), r.value, r.test, i);
    }
  }

  lemma BothBelow(p: Problem, t: real, tz: real, s: Stages, e: real, i: int)
    requires NormBounds(p) && NormOfBoth(p, t, tz, s, e) && 0 <= i < p.size
    ensures -e <= p.func(s.full.x, s.full.xp, t)(i) <= e && -e <= p.func(s.mid.x, s.mid.xp, tz)(i) <= e
  {
    var r: Vec :| BothResiduals(p, t, tz, s, r) && e == p.norm(2 * p.size, r);
    assert BothResidualsAt(p, t, tz, s, r, i);
    assert -p.norm(2 * p.size, r) <= r(i) <= p.norm(2 * p.size, r);
    assert -p.norm(2 * p.size, r) <= r(p.size + i) <= p.norm(2 * p.size, r);
  }

  /** Every accepted step of every run. */
  lemma TwoStageRunOnFormulas(
      p: Problem, c: TwoStage, linear: bool, dt: real, tol: real, maxiter: int, tf: real, t: real, m1: State,
      m2: State, k: int)
    requires dt > 0.0 && Consistent(c)
    requires 0 <= k < |Integrate(TwoStageStep(p, c, linear, dt, tol, maxiter), dt, tf, t, m1, m2).log|
    ensures var log := Integrate(TwoStageStep(p, c, linear, dt, tol, maxiter), dt, tf, t, m1, m2).log;
      log[k].t == TimeOf(t, dt, k + 1) && OnSomeStages(p, c, dt, tol, log[k], Accepted(m1, m2, log, k - 1))
  {
    var step := TwoStageStep(p, c, linear, dt, tol, maxiter);
    var log := Integrate(step, dt, tf, t, m1, m2).log;
    hide OnStages, TwoStageNewton, NormOfBoth, MidTime, Integrate, TimeOf, Accepted, Consistent;
    RunIsChain(step, dt, tf, t, m1, m2);
    assert EntryFollows(step, dt, tf, t, m1, m2, log, k);
    var l1, l2 := Accepted(m1, m2, log, k - 1), Accepted(m1, m2, log, k - 2);
    TwoStageStepOnFormulas(p, c, linear, dt, tol, maxiter, log[k].t, l1, l2);
    var r := TwoStageNewton(p, c, linear, dt, tol, maxiter, log[k].t, l1, l2);
    assert r.value == Stages(log[k].s, r.value.mid);
  }
}

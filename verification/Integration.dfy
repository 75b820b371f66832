// The integration methods of utils/dae-intg.cc as functions of the problem, the data of the run and the history:
// prediction, the Newton loop, and the time loop, with what every run keeps.
module Integration {
  import opened Sums
  import opened LinearAlgebra
  import opened DaeCoefficients

  /** The functions of a problem module, its matrices, and the linear solver and norm of the solution manager. */
  datatype Problem = Problem(
    size: nat,
    func: (seq<real>, seq<real>, real) -> Vec,
    gradX: (seq<real>, seq<real>, real) -> Mat,
    gradXP: (seq<real>, seq<real>, real) -> Mat,
    solve: (nat, Mat, Vec) -> Vec,
    norm: (nat, Vec) -> real)

  /** The state and its derivative at one time. */
  datatype State = State(x: seq<real>, xp: seq<real>)

  function Indexed(n: nat, f: Vec): (s: seq<real>)
    ensures |s| == n && forall i :: 0 <= i < n ==> s[i] == f(i)
  {
    seq(n, i => f(i))
  }

  ghost predicate Sized(n: nat, s: State) {
    |s.x| == n && |s.xp| == n
  }

  /** The history of a straight line, one step back. */
  ghost function StepBack(dt: real, s: State): State {
    State(Indexed(|s.x|, BackStates(dt, AsVec(s.x), AsVec(s.xp))), s.xp)
  }

  function Back(dt: real, x: real, xp: real): real {
    x - dt * xp
  }

  ghost function BackStates(dt: real, x: Vec, xp: Vec): Vec {
    i => Back(dt, x(i), xp(i))
  }

  // ----- the Newton loop

  datatype Outcome<S> = Converged(value: S, test: real) | NoConvergence

  /** Test, then correct at most left times. */
  function Newton<S>(test: S -> real, correct: S -> S, tol: real, left: nat, s: S): Outcome<S> {
    if test(s) < tol then Converged(s, test(s))
    else if left == 0 then NoConvergence
    else Newton(test, correct, tol, left - 1, correct(s))
  }

  /** The corrections that the iteration counter admits. */
  function Allowed(maxiter: int): nat {
    if maxiter > 0 then maxiter else 0
  }

  ghost function Iterate<S>(correct: S -> S, s: S, k: nat): S {
    if k == 0 then s else Iterate(correct, correct(s), k - 1)
  }

  /** Iterate k is the first below the tolerance. */
  ghost predicate FirstBelow<S>(test: S -> real, correct: S -> S, tol: real, s: S, k: nat) {
    test(Iterate(correct, s, k)) < tol && forall j: nat :: j < k ==> test(Iterate(correct, s, j)) >= tol
  }

  /** The loop returns the first iterate below the tolerance, and gives up when none of those admitted is. */
  lemma {:induction false} NewtonFindsFirst<S>(test: S -> real, correct: S -> S, tol: real, left: nat, s: S)
    ensures match Newton(test, correct, tol, left, s)
      case NoConvergence => forall k: nat :: k <= left ==> test(Iterate(correct, s, k)) >= tol
      case Converged(v, e) =>
        exists k: nat :: k <= left && FirstBelow(test, correct, tol, s, k) && v == Iterate(correct, s, k) &&
          e == test(v)
    decreases left
  {
    assert Iterate(correct, s, 0) == s;
    if test(s) < tol {
      assert FirstBelow(test, correct, tol, s, 0);
    } else if left > 0 {
      var s' := correct(s);
      NewtonFindsFirst(test, correct, tol, left - 1, s');
      assert forall k: nat :: k >= 1 ==> Iterate(correct, s, k) == Iterate(correct, s', k - 1);
      var r := Newton(test, correct, tol, left - 1, s');
      if r.Converged? {
        var k: nat :| k <= left - 1 && FirstBelow(test, correct, tol, s', k) && r.value == Iterate(correct, s', k);
        assert FirstBelow(test, correct, tol, s, k + 1);
      }
    }
  }

  // ----- the time loop

  /** One line of the output. */
  datatype Output = Output(t: real, test: real, s: State)

  /** What a run printed, and whether it reached the final time. */
  datatype Run = Run(completed: bool, log: seq<Output>)

  type Step = (real, State, State) -> Outcome<State>

  function StepsLeft(dt: real, t: real, tf: real): (k: nat)
    requires dt > 0.0
    ensures t >= tf ==> k == 0
  {
    if t < tf then
      QuotientPositive(tf - t, dt);
      ((tf - t) / dt).Floor + 1
    else 0
  }

  lemma QuotientPositive(a: real, b: real)
    requires a > 0.0 && b > 0.0
    ensures a / b > 0.0
  {
  }

  lemma StepTaken(dt: real, t: real, tf: real)
    requires dt > 0.0 && t < tf
    ensures StepsLeft(dt, t + dt, tf) < StepsLeft(dt, t, tf)
  {
    var a, b := (tf - t) / dt, (tf - (t + dt)) / dt;
    assert a * dt == tf - t && b * dt == tf - t - dt;
    assert (a - 1.0) * dt == a * dt - dt;
    Cancel(b, a - 1.0, dt);
    QuotientPositive(tf - t, dt);
  }

  /** The runs of all methods: m1 and m2 are the last two accepted samples. */
  function Integrate(step: Step, dt: real, tf: real, t: real, m1: State, m2: State): Run
    requires dt > 0.0
    decreases StepsLeft(dt, t, tf)
  {
    if t >= tf then Run(true, [])
    else
      match step(t + dt, m1, m2)
      case NoConvergence => Run(false, [])
      case Converged(s, test) =>
        StepTaken(dt, t, tf);
        var rest := Integrate(step, dt, tf, t + dt, s, m1);
        Run(rest.completed, [Output(t + dt, test, s)] + rest.log)
  }

  /** State k of a run, counting the history as -1 and -2. */
  ghost function Accepted(m1: State, m2: State, log: seq<Output>, k: int): State
    requires -2 <= k < |log|
  {
    if k == -2 then m2 else if k == -1 then m1 else log[k].s
  }

  ghost function TimeOf(t: real, dt: real, k: int): real {
    t + (k as real) * dt
  }

  lemma NextTime(t: real, dt: real, k: int)
    ensures TimeOf(t + dt, dt, k) == TimeOf(t, dt, k + 1)
    ensures TimeOf(t, dt, 0) == t && TimeOf(t, dt, 1) == t + dt
  {
  }

  /** Entry k of the log is what the step makes of the two samples before it, at its own time. */
  ghost predicate EntryFollows(step: Step, dt: real, tf: real, t: real, m1: State, m2: State, log: seq<Output>, k: int)
    requires 0 <= k < |log|
  {
    && log[k].t == TimeOf(t, dt, k + 1)
    && TimeOf(t, dt, k) < tf
    && step(log[k].t, Accepted(m1, m2, log, k - 1), Accepted(m1, m2, log, k - 2)) == Converged(log[k].s, log[k].test)
  }

  /** A run is complete when it reaches the final time, and otherwise stops at a step that does not converge. */
  ghost predicate EndsProperly(step: Step, dt: real, tf: real, t: real, m1: State, m2: State, r: Run) {
    var n := |r.log|;
    && (r.completed <==> TimeOf(t, dt, n) >= tf)
    && (!r.completed ==>
        step(TimeOf(t, dt, n + 1), Accepted(m1, m2, r.log, n - 1), Accepted(m1, m2, r.log, n - 2)).NoConvergence?)
  }

  lemma {:induction false} RunIsChain(step: Step, dt: real, tf: real, t: real, m1: State, m2: State)
    requires dt > 0.0
    ensures var r := Integrate(step, dt, tf, t, m1, m2);
      && (forall k :: 0 <= k < |r.log| ==> EntryFollows(step, dt, tf, t, m1, m2, r.log, k))
      && EndsProperly(step, dt, tf, t, m1, m2, r)
    decreases StepsLeft(dt, t, tf)
  {
    NextTime(t, dt, 0);
    if t < tf && step(t + dt, m1, m2).Converged? {
      StepTaken(dt, t, tf);
      var s := step(t + dt, m1, m2).value;
      RunIsChain(step, dt, tf, t + dt, s, m1);
      var r, rest := Integrate(step, dt, tf, t, m1, m2), Integrate(step, dt, tf, t + dt, s, m1);
      hide Integrate, TimeOf;
      LogShift(r.log, rest.log, m1, m2);
      forall k | 0 <= k < |r.log|
        ensures EntryFollows(step, dt, tf, t, m1, m2, r.log, k)
      {
        if k > 0 {
          EntryShift(step, dt, tf, t, t + dt, m1, m2, s, r.log, rest.log, k);
        }
      }
      NextTime(t, dt, |rest.log|);
      NextTime(t, dt, |rest.log| + 1);
    }
  }

  lemma EntryShift(step: Step, dt: real, tf: real, t: real, t': real, m1: State, m2: State, s: State,
                   log: seq<Output>, rest: seq<Output>, k: int)
    requires 0 < k < |log| && rest == log[1..] && log[0].s == s && t' == t + dt
    requires EntryFollows(step, dt, tf, t', s, m1, rest, k - 1)
    ensures EntryFollows(step, dt, tf, t, m1, m2, log, k)
  {
    NextTime(t, dt, k - 1);
    NextTime(t, dt, k);
    hide TimeOf;
    LogShift(log, rest, m1, m2);
  }

  lemma LogShift(log: seq<Output>, rest: seq<Output>, m1: State, m2: State)
    requires |log| > 0 && rest == log[1..]
    ensures forall k :: -2 <= k < |rest| ==> Accepted(log[0].s, m1, rest, k) == Accepted(m1, m2, log, k + 1)
  {
  }

  // ----- method_multistep

  function MultistepSlopes(dt: real, m1: State, m2: State): Vec {
    i => MultistepSlope(dt, AsVec(m1.x)(i), AsVec(m1.xp)(i), AsVec(m2.x)(i), AsVec(m2.xp)(i))
  }

  function MultistepStates(c: Multistep, dt: real, xp: Vec, m1: State, m2: State): Vec {
    i => Advance(c, dt, xp(i), AsVec(m1.x)(i), AsVec(m1.xp)(i), AsVec(m2.x)(i), AsVec(m2.xp)(i))
  }

  function MultistepPredict(n: nat, c: Multistep, dt: real, m1: State, m2: State): State {
    var xp := MultistepSlopes(dt, m1, m2);
    State(Indexed(n, MultistepStates(c, dt, xp, m1, m2)), Indexed(n, xp))
  }

  function Tested(p: Problem, t: real): State -> real {
    (s: State) => p.norm(p.size, p.func(s.x, s.xp, t))
  }

  function MultistepJacobian(J: Mat, JP: Mat, coef: real): Mat {
    (i, j) => JP(i, j) + coef * J(i, j)
  }

  function Added(x: real, k: real, d: real): real {
    x + k * d
  }

  function Shifted(x: seq<real>, k: real, d: Vec): Vec {
    i => Added(AsVec(x)(i), k, d(i))
  }

  function MultistepSolution(p: Problem, coef: real, t: real, s: State): Vec {
    p.solve(p.size, MultistepJacobian(p.gradX(s.x, s.xp, t), p.gradXP(s.x, s.xp, t), coef), p.func(s.x, s.xp, t))
  }

  function MultistepCorrection(p: Problem, coef: real, s: State, dxP: Vec): State {
    State(Indexed(p.size, Shifted(s.x, coef, dxP)), Indexed(p.size, Shifted(s.xp, 1.0, dxP)))
  }

  /** What a correction of the derivative adds to the state. */
  function Gain(c: Multistep, dt: real): real {
    dt * c.b0
  }

  function MultistepCorrect(p: Problem, c: Multistep, dt: real, t: real): State -> State {
    (s: State) => MultistepCorrection(p, Gain(c, dt), s, MultistepSolution(p, Gain(c, dt), t, s))
  }

  function MultistepNewton(
      p: Problem, c: Multistep, dt: real, tol: real, maxiter: int, t: real, m1: State, m2: State): Outcome<State>
  {
    Newton(Tested(p, t), MultistepCorrect(p, c, dt, t), tol, Allowed(maxiter), MultistepPredict(p.size, c, dt, m1, m2))
  }

  function MultistepStep(p: Problem, c: Multistep, dt: real, tol: real, maxiter: int): Step {
    (t: real, m1: State, m2: State) => MultistepNewton(p, c, dt, tol, maxiter, t, m1, m2)
  }

  ghost predicate OnFormulaAt(c: Multistep, dt: real, s: State, m1: State, m2: State, i: int) {
    AsVec(s.x)(i) == Advance(c, dt, AsVec(s.xp)(i), AsVec(m1.x)(i), AsVec(m1.xp)(i), AsVec(m2.x)(i), AsVec(m2.xp)(i))
  }

  /** The sample satisfies the discretization formula in terms of its derivative and the history. */
  ghost predicate OnFormula(n: nat, c: Multistep, dt: real, s: State, m1: State, m2: State) {
    Sized(n, s) && forall i :: 0 <= i < n ==> OnFormulaAt(c, dt, s, m1, m2, i)
  }

  lemma MultistepPredictOnFormula(n: nat, c: Multistep, dt: real, m1: State, m2: State)
    ensures OnFormula(n, c, dt, MultistepPredict(n, c, dt, m1, m2), m1, m2)
  {
  }

  lemma MultistepCorrectionOnFormula(p: Problem, c: Multistep, dt: real, s: State, d: Vec, m1: State, m2: State)
    requires OnFormula(p.size, c, dt, s, m1, m2)
    ensures OnFormula(p.size, c, dt, MultistepCorrection(p, Gain(c, dt), s, d), m1, m2)
  {
    var s' := MultistepCorrection(p, Gain(c, dt), s, d);
    forall i | 0 <= i < p.size
      ensures OnFormulaAt(c, dt, s', m1, m2, i)
    {
      assert OnFormulaAt(c, dt, s, m1, m2, i);
      AdvanceShifts(c, dt, d(i), AsVec(s.xp)(i), AsVec(m1.x)(i), AsVec(m1.xp)(i), AsVec(m2.x)(i), AsVec(m2.xp)(i));
    }
  }

  lemma AdvanceShifts(c: Multistep, dt: real, d: real, xp: real, xm1: real, xpm1: real, xm2: real, xpm2: real)
    ensures Advance(c, dt, xp + 1.0 * d, xm1, xpm1, xm2, xpm2)
            == Advance(c, dt, xp, xm1, xpm1, xm2, xpm2) + dt * c.b0 * d
  {
  }

  /** Every Newton iterate satisfies the formula. */
  lemma {:induction false} MultistepIterateOnFormula(
      p: Problem, c: Multistep, dt: real, t: real, s: State, m1: State, m2: State, k: nat)
    requires OnFormula(p.size, c, dt, s, m1, m2)
    ensures OnFormula(p.size, c, dt, Iterate(MultistepCorrect(p, c, dt, t), s, k), m1, m2)
    decreases k
  {
    if k > 0 {
      assert MultistepCorrect(p, c, dt, t)(s)
        == MultistepCorrection(p, Gain(c, dt), s, MultistepSolution(p, Gain(c, dt), t, s));
      hide OnFormula, MultistepCorrection, MultistepSolution, MultistepCorrect;
      MultistepCorrectionOnFormula(p, c, dt, s, MultistepSolution(p, Gain(c, dt), t, s), m1, m2);
      MultistepIterateOnFormula(p, c, dt, t, MultistepCorrect(p, c, dt, t)(s), m1, m2, k - 1);
    }
  }

  /** Every accepted step satisfies the formula, and the norm of its residual is below the tolerance. */
  lemma MultistepStepOnFormula(p: Problem, c: Multistep, dt: real, tol: real, maxiter: int, t: real, m1: State,
                               m2: State)
    ensures var r := MultistepNewton(p, c, dt, tol, maxiter, t, m1, m2);
      r.Converged? ==>
        OnFormula(p.size, c, dt, r.value, m1, m2) && r.test == p.norm(p.size, p.func(r.value.x, r.value.xp, t)) < tol
  {
    hide OnFormula, MultistepPredict, MultistepCorrect, MultistepNewton;
    var s := MultistepPredict(p.size, c, dt, m1, m2);
    MultistepPredictOnFormula(p.size, c, dt, m1, m2);
    MultistepStepIsFirst(p, c, dt, tol, maxiter, t, m1, m2);
    var r := MultistepNewton(p, c, dt, tol, maxiter, t, m1, m2);
    if r.Converged? {
      var k: nat :| (k == 0 || k <= maxiter) && r.value == Iterate(MultistepCorrect(p, c, dt, t), s, k)
        && r.test == p.norm(p.size, p.func(r.value.x, r.value.xp, t));
      MultistepIterateOnFormula(p, c, dt, t, s, m1, m2, k);
    }
  }

  /** It is the first of the prediction and its corrections, at most maxiter of them, whose residual has a norm below
      the tolerance; without one the step fails. */
  lemma MultistepStepIsFirst(p: Problem, c: Multistep, dt: real, tol: real, maxiter: int, t: real, m1: State, m2: State)
    ensures var s, correct := MultistepPredict(p.size, c, dt, m1, m2), MultistepCorrect(p, c, dt, t);
      match MultistepNewton(p, c, dt, tol, maxiter, t, m1, m2)
      case NoConvergence => forall k: nat :: k == 0 || k <= maxiter ==>
        var s' := Iterate(correct, s, k); p.norm(p.size, p.func(s'.x, s'.xp, t)) >= tol
      case Converged(v, e) =>
        && e == p.norm(p.size, p.func(v.x, v.xp, t)) < tol
        && exists k: nat :: (k == 0 || k <= maxiter) && v == Iterate(correct, s, k) &&
                            forall j: nat :: j < k ==>
                              var s' := Iterate(correct, s, j);
                              p.norm(p.size, p.func(s'.x, s'.xp, t)) >= tol
  {
    hide MultistepPredict, MultistepCorrect;
    NewtonFindsFirst(Tested(p, t), MultistepCorrect(p, c, dt, t), tol, Allowed(maxiter),
                     MultistepPredict(p.size, c, dt, m1, m2));
  }

  /** Every accepted step of every run. */
  lemma MultistepRunOnFormula(
      p: Problem, c: Multistep, dt: real, tol: real, maxiter: int, tf: real, t: real, m1: State, m2: State, k: int)
    requires dt > 0.0
    requires 0 <= k < |Integrate(MultistepStep(p, c, dt, tol, maxiter), dt, tf, t, m1, m2).log|
    ensures var log := Integrate(MultistepStep(p, c, dt, tol, maxiter), dt, tf, t, m1, m2).log;
      && log[k].t == TimeOf(t, dt, k + 1)
      && OnFormula(p.size, c, dt, log[k].s, Accepted(m1, m2, log, k - 1), Accepted(m1, m2, log, k - 2))
      && log[k].test == p.norm(p.size, p.func(log[k].s.x, log[k].s.xp, log[k].t)) < tol
  {
    var step := MultistepStep(p, c, dt, tol, maxiter);
    var log := Integrate(step, dt, tf, t, m1, m2).log;
    hide OnFormula, MultistepNewton, Integrate, TimeOf, Accepted;
    RunIsChain(step, dt, tf, t, m1, m2);
    assert EntryFollows(step, dt, tf, t, m1, m2, log, k);
    MultistepStepOnFormula(p, c, dt, tol, maxiter, log[k].t, Accepted(m1, m2, log, k - 1),
                           Accepted(m1, m2, log, k - 2));
  }
}

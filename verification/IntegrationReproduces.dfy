// Runs of the integration methods on polynomial solutions: with exact history they reproduce the polynomial,
// to the degree that each predictor and each method is built for.
module IntegrationReproduces {
  import opened Sums
  import opened LinearAlgebra
  import opened DaeCoefficients
  import opened TwoStageCoefficients
  import opened Integration
  import opened TwoStageIntegration
  import opened IntegrationExact

  /** One polynomial for each component of the state. */
  type Solution = int -> Cubic

  ghost function ValuesAt(q: Solution, t: real): Vec {
    i => q(i).At(t)
  }

  ghost function SlopesAt(q: Solution, t: real): Vec {
    i => q(i).Slope(t)
  }

  ghost function StateOf(n: nat, q: Solution, t: real): State {
    State(Indexed(n, ValuesAt(q, t)), Indexed(n, SlopesAt(q, t)))
  }

  ghost predicate SolvedAt(p: Problem, q: Solution, t: real) {
    Vanishes(p.size, p.func(StateOf(p.size, q, t).x, StateOf(p.size, q, t).xp, t))
  }

  /** The polynomial solves the problem. */
  ghost predicate ExactSolution(p: Problem, q: Solution) {
    forall t: real :: SolvedAt(p, q, t)
  }

  // ----- predictions that need no correction

  /** The prediction from exact history is exact, at both stages. */
  ghost predicate PredictsAt(c: TwoStage, linear: bool, dt: real, q: Cubic, t: real)
    requires dt != 0.0
  {
    var x, v, z := q.At(t), q.Slope(t), MidTime(c, dt, t + dt);
    if linear then
      && v == q.Slope(t + dt) == q.Slope(z)
      && Line(dt, x, v) == q.At(t + dt) && MidLine(c, dt, x, v) == q.At(z)
    else
      && PredictedSlope(c.full, dt, x, v, q.At(t - dt), q.Slope(t - dt)) == q.Slope(t + dt)
      && PredictedSlope(c.mid, dt, x, v, q.At(t - dt), q.Slope(t - dt)) == q.Slope(z)
      && StepX(c, dt, x, v, q.Slope(z), q.Slope(t + dt)) == q.At(t + dt)
      && StepXz(c, dt, q.At(t + dt), x, v, q.Slope(t + dt)) == q.At(z)
  }

  /** method_cubic with its cubic predictor: every polynomial of degree three. */
  lemma CubicPredicts(rho: real, c: TwoStage, dt: real, q: Cubic, t: real)
    requires rho != 0.0 && rho != -1.0 && dt != 0.0 && c == CubicFor(rho)
    ensures PredictsAt(c, false, dt, q, t)
  {
    hide CubicFor, MidTime, Cubic.At, Cubic.Slope, PredictedSlope, StepX, StepXz, Quadrature;
    var u := t + dt;
    CubicQuadrature(rho);
    CubicPredictsExactly(rho, q, t, dt);
    assert u - dt == t;
    StepExact(c, q, u, dt);
    CubicMidExact(rho, q, u, dt);
  }

  /** method_radau_II with its parabolic predictor: just the polynomials of degree two. */
  lemma RadauPredicts(dt: real, q: Cubic, t: real)
    requires dt != 0.0
    ensures PredictsAt(RadauFor(), false, dt, q, t) <==> q.c3 == 0.0
  {
    hide RadauFor, MidTime, Cubic.At, Cubic.Slope, PredictedSlope, StepX, StepXz, Quadrature;
    var c, u := RadauFor(), t + dt;
    RadauQuadrature();
    RadauPredictsExactly(q, t, dt);
    assert u - dt == t;
    StepExact(c, q, u, dt);
    RadauMidExact(q, u, dt);
  }

  /** The linear predictor of either method: just the straight lines, with an intermediate time inside the step. */
  lemma LinearPredicts(c: TwoStage, dt: real, q: Cubic, t: real)
    requires dt != 0.0
    ensures StraightLine(q) ==> PredictsAt(c, true, dt, q, t)
    ensures c.z != 0.0 && c.z != -1.0 ==> (PredictsAt(c, true, dt, q, t) <==> StraightLine(q))
  {
    if StraightLine(q) {
      LineIsPredicted(c, dt, q, t);
    }
    if c.z != 0.0 && c.z != -1.0 && PredictsAt(c, true, dt, q, t) {
      hide Cubic.At, Cubic.Slope, Line, MidLine;
      MidFromLast(c, dt, t);
      EqualSlopes(q, t, dt, 1.0 + c.z, (1.0 + c.z) * dt, t + dt, MidTime(c, dt, t + dt));
    }
  }

  lemma LineIsPredicted(c: TwoStage, dt: real, q: Cubic, t: real)
    requires dt != 0.0 && StraightLine(q)
    ensures PredictsAt(c, true, dt, q, t)
  {
  }

  /** A cubic with the same slope at three different times is a straight line. */
  lemma EqualSlopes(q: Cubic, t: real, d: real, y: real, e: real, u: real, v: real)
    requires d != 0.0 && y != 0.0 && y != 1.0 && e == y * d && u == t + d && v == t + e
    requires q.Slope(t) == q.Slope(u) == q.Slope(v)
    ensures StraightLine(q)
  {
    var a := 2.0 * q.c2 + 6.0 * (q.c3 * t);
    SlopeGap(q, t, d, u, a);
    SlopeGap(q, t, e, v, a);
    hide Cubic.Slope;
    NonZero2(y, d);
    NonZero2(y - 1.0, d);
    Cancel(a + 3.0 * (q.c3 * d), 0.0, d);
    Cancel(a + 3.0 * (q.c3 * e), 0.0, e);
    assert q.c3 * e - q.c3 * d == q.c3 * ((y - 1.0) * d);
    Cancel(q.c3, 0.0, (y - 1.0) * d);
  }

  lemma SlopeGap(q: Cubic, t: real, d: real, u: real, a: real)
    requires u == t + d && a == 2.0 * q.c2 + 6.0 * (q.c3 * t)
    ensures q.Slope(u) - q.Slope(t) == (a + 3.0 * (q.c3 * d)) * d
  {
    assert u * u - t * t == 2.0 * (t * d) + d * d;
  }

  lemma LineValue(q: Cubic, t: real)
    requires q.c2 == 0.0 && q.c3 == 0.0
    ensures q.At(t) == q.c0 + q.c1 * t
  {
  }

  ghost predicate Predicts(n: nat, c: TwoStage, linear: bool, dt: real, q: Solution)
    requires dt != 0.0
  {
    forall i: int, t: real :: 0 <= i < n ==> PredictsAt(c, linear, dt, q(i), t)
  }

  lemma PredictionIsSolution(n: nat, c: TwoStage, linear: bool, dt: real, q: Solution, t: real)
    requires dt != 0.0 && Predicts(n, c, linear, dt, q)
    ensures TwoStagePredict(n, c, linear, dt, StateOf(n, q, t), StateOf(n, q, t - dt))
         == Stages(StateOf(n, q, t + dt), StateOf(n, q, MidTime(c, dt, t + dt)))
  {
    var s := TwoStagePredict(n, c, linear, dt, StateOf(n, q, t), StateOf(n, q, t - dt));
    var e, z := StateOf(n, q, t + dt), StateOf(n, q, MidTime(c, dt, t + dt));
    hide Cubic.At, Cubic.Slope, PredictedSlope, StepX, StepXz, Line, MidLine, MidTime;
    forall i | 0 <= i < n
      ensures s.full.x[i] == e.x[i] && s.full.xp[i] == e.xp[i] && s.mid.x[i] == z.x[i] && s.mid.xp[i] == z.xp[i]
    {
      assert PredictsAt(c, linear, dt, q(i), t);
    }
    assert s.full.x == e.x && s.full.xp == e.xp && s.mid.x == z.x && s.mid.xp == z.xp;
  }

  /** From exact history of polynomials of degree three the multistep method proposes dt times their slopes, and from
      there the states that its formula gives. */
  lemma MultistepPredicts(n: nat, c: Multistep, dt: real, q: Solution, t: real, i: nat)
    requires dt != 0.0 && i < n
    ensures var s := MultistepPredict(n, c, dt, StateOf(n, q, t), StateOf(n, q, t - dt));
      && s.xp[i] == dt * q(i).Slope(t + dt)
      && s.x[i] == Advance(c, dt, dt * q(i).Slope(t + dt), q(i).At(t), q(i).Slope(t), q(i).At(t - dt),
                           q(i).Slope(t - dt))
  {
    MultistepPredictor(q(i), t, dt);
    hide MultistepSlope, Advance, Cubic.At, Cubic.Slope;
    var m1, m2 := StateOf(n, q, t), StateOf(n, q, t - dt);
    assert AsVec(m1.x)(i) == q(i).At(t) && AsVec(m1.xp)(i) == q(i).Slope(t);
    assert AsVec(m2.x)(i) == q(i).At(t - dt) && AsVec(m2.xp)(i) == q(i).Slope(t - dt);
  }

  /** A step from exact history needs no correction and is exact. */
  lemma StepReproduces(p: Problem, c: TwoStage, linear: bool, dt: real, tol: real, maxiter: int, q: Solution, t: real)
    requires dt != 0.0 && tol > 0.0 && NormOfZero(p) && ExactSolution(p, q) && Predicts(p.size, c, linear, dt, q)
    ensures TwoStageNewton(p, c, linear, dt, tol, maxiter, t + dt, StateOf(p.size, q, t), StateOf(p.size, q, t - dt))
         == Converged(Stages(StateOf(p.size, q, t + dt), StateOf(p.size, q, MidTime(c, dt, t + dt))), 0.0)
  {
    hide StateOf, Predicts, TwoStagePredict, TwoStageCorrect, MidTime;
    PredictionIsSolution(p.size, c, linear, dt, q, t);
    var s := Stages(StateOf(p.size, q, t + dt), StateOf(p.size, q, MidTime(c, dt, t + dt)));
    assert SolvedAt(p, q, t + dt) && SolvedAt(p, q, MidTime(c, dt, t + dt));
    assert Vanishes(2 * p.size, TwoStageResidual(p, c, dt, t + dt, s));
  }

  /** A run from exact history completes without a correction, and every line of its output is on the polynomial. */
  lemma {:induction false} RunReproduces(
      p: Problem, c: TwoStage, linear: bool, dt: real, tol: real, maxiter: int, tf: real, q: Solution, t: real)
    requires dt > 0.0 && tol > 0.0 && NormOfZero(p) && ExactSolution(p, q) && Predicts(p.size, c, linear, dt, q)
    ensures var r := Integrate(TwoStageStep(p, c, linear, dt, tol, maxiter), dt, tf, t, StateOf(p.size, q, t),
                               StateOf(p.size, q, t - dt));
      r.completed && forall k :: 0 <= k < |r.log| ==>
        r.log[k] == Output(TimeOf(t, dt, k + 1), 0.0, StateOf(p.size, q, TimeOf(t, dt, k + 1)))
    decreases StepsLeft(dt, t, tf)
  {
    hide StateOf, Predicts, TwoStageNewton, MidTime, TimeOf, ExactSolution, NormOfZero;
    if t < tf {
      StepReproduces(p, c, linear, dt, tol, maxiter, q, t);
      StepTaken(dt, t, tf);
      assert t + dt - dt == t;
      RunReproduces(p, c, linear, dt, tol, maxiter, tf, q, t + dt);
      NextTime(t, dt, 0);
      var step := TwoStageStep(p, c, linear, dt, tol, maxiter);
      var r, rest := Integrate(step, dt, tf, t, StateOf(p.size, q, t), StateOf(p.size, q, t - dt)),
        Integrate(step, dt, tf, t + dt, StateOf(p.size, q, t + dt), StateOf(p.size, q, t));
      forall k | 0 <= k < |r.log|
        ensures r.log[k] == Output(TimeOf(t, dt, k + 1), 0.0, StateOf(p.size, q, TimeOf(t, dt, k + 1)))
      {
        if k > 0 {
          assert r.log[k] == rest.log[k - 1];
          NextTime(t, dt, k);
        }
      }
    }
  }

  ghost predicate StraightLine(q: Cubic) {
    q.c2 == 0.0 && q.c3 == 0.0
  }

  /** The history before the initial state is exact for straight lines. */
  lemma StartsOnLines(n: nat, q: Solution, t: real, dt: real)
    requires forall i :: 0 <= i < n ==> StraightLine(q(i))
    ensures StepBack(dt, StateOf(n, q, t)) == StateOf(n, q, t - dt)
  {
    hide Cubic.At, Cubic.Slope, Back, StraightLine;
    var s, b := StateOf(n, q, t - dt), StepBack(dt, StateOf(n, q, t));
    forall i | 0 <= i < n
      ensures b.x[i] == s.x[i] && b.xp[i] == s.xp[i]
    {
      BackOnLine(q(i), t, t - dt, dt);
    }
    assert b.x == s.x && b.xp == s.xp;
  }

  lemma BackOnLine(q: Cubic, t: real, u: real, dt: real)
    requires StraightLine(q) && u == t - dt
    ensures Back(dt, q.At(t), q.Slope(t)) == q.At(u) && q.Slope(t) == q.Slope(u)
  {
    hide Cubic.At, Cubic.Slope, Back;
    LinearSlope(q, t);
    LinearSlope(q, u);
    LineValue(q, t);
    LineValue(q, u);
    BackScalars(q.At(t), q.At(u), q.c0, q.c1, t, u, dt);
  }

  lemma BackScalars(x: real, x': real, x0: real, v: real, t: real, t': real, dt: real)
    requires x == x0 + v * t && x' == x0 + v * t' && t' == t - dt
    ensures Back(dt, x, v) == x'
  {
    assert v * t' == v * t - dt * v;
  }

  /** From its initial state, a two-stage method with either predictor follows a solution that is a straight line. */
  lemma LinesReproduced(
      p: Problem, c: TwoStage, linear: bool, dt: real, tol: real, maxiter: int, tf: real, q: Solution, t: real)
    requires dt > 0.0 && tol > 0.0 && NormOfZero(p) && ExactSolution(p, q)
    requires forall i :: 0 <= i < p.size ==> StraightLine(q(i))
    requires c == RadauFor() || exists rho :: rho != 0.0 && rho != -1.0 && c == CubicFor(rho)
    ensures var r := Integrate(TwoStageStep(p, c, linear, dt, tol, maxiter), dt, tf, t, StateOf(p.size, q, t),
                               StepBack(dt, StateOf(p.size, q, t)));
      r.completed && forall k :: 0 <= k < |r.log| ==>
        r.log[k] == Output(TimeOf(t, dt, k + 1), 0.0, StateOf(p.size, q, TimeOf(t, dt, k + 1)))
  {
    hide StateOf, CubicFor, RadauFor, PredictsAt, TwoStageNewton, TimeOf, Integrate, StepBack, ExactSolution,
      NormOfZero;
    StartsOnLines(p.size, q, t, dt);
    forall i: int, u: real | 0 <= i < p.size
      ensures PredictsAt(c, linear, dt, q(i), u)
    {
      assert StraightLine(q(i));
      if linear {
        LinearPredicts(c, dt, q(i), u);
      } else if c == RadauFor() {
        RadauPredicts(dt, q(i), u);
      } else {
        var rho :| rho != 0.0 && rho != -1.0 && c == CubicFor(rho);
        CubicPredicts(rho, c, dt, q(i), u);
      }
    }
    RunReproduces(p, c, linear, dt, tol, maxiter, tf, q, t);
  }

  // ----- runs whose accepted derivatives are exact

  /** The accepted derivatives are those of the polynomial. */
  ghost predicate ExactDerivatives(n: nat, q: Solution, t: real, dt: real, log: seq<Output>) {
    forall k :: 0 <= k < |log| ==> log[k].s.xp == StateOf(n, q, TimeOf(t, dt, k + 1)).xp
  }

  /** The multistep method then reproduces every polynomial of degree two, whatever the residual is. */
  lemma {:induction false} MultistepRunReproduces(
      p: Problem, rho: real, dt: real, tol: real, maxiter: int, tf: real, q: Solution, t: real, k: int)
    requires MultistepDivisor(rho) != 0.0 && dt > 0.0 && forall i :: 0 <= i < p.size ==> q(i).c3 == 0.0
    requires var log := MultistepLog(p, rho, dt, tol, maxiter, tf, q, t);
      -2 <= k < |log| && ExactDerivatives(p.size, q, t, dt, log)
    ensures var log := MultistepLog(p, rho, dt, tol, maxiter, tf, q, t);
      Accepted(StateOf(p.size, q, t), StateOf(p.size, q, t - dt), log, k) == StateOf(p.size, q, TimeOf(t, dt, k + 1))
    decreases k + 2
  {
    hide StateOf, MultistepFor, MultistepStep, TimeOf, Integrate, MultistepDivisor, OnFormula, Tested, MultistepNewton;
    var c, n, log := MultistepFor(rho), p.size, MultistepLog(p, rho, dt, tol, maxiter, tf, q, t);
    var m1, m2 := StateOf(n, q, t), StateOf(n, q, t - dt);
    NextTime(t, dt, 0);
    TimesBefore(t, dt, 0);
    if k >= 0 {
      MultistepRunReproduces(p, rho, dt, tol, maxiter, tf, q, t, k - 1);
      MultistepRunReproduces(p, rho, dt, tol, maxiter, tf, q, t, k - 2);
      MultistepRunOnFormula(p, c, dt, tol, maxiter, tf, t, m1, m2, k);
      var u := TimeOf(t, dt, k + 1);
      TimesBefore(t, dt, k);
      MultistepStateExact(n, rho, dt, q, u, log[k].s);
      assert log[k].s.xp == StateOf(n, q, TimeOf(t, dt, k + 1)).xp;
    }
  }

  ghost function MultistepLog(p: Problem, rho: real, dt: real, tol: real, maxiter: int, tf: real, q: Solution,
                              t: real): seq<Output>
    requires MultistepDivisor(rho) != 0.0 && dt > 0.0
  {
    Integrate(MultistepStep(p, MultistepFor(rho), dt, tol, maxiter), dt, tf, t, StateOf(p.size, q, t),
              StateOf(p.size, q, t - dt)).log
  }

  lemma TimesBefore(t: real, dt: real, k: int)
    ensures TimeOf(t, dt, k) == TimeOf(t, dt, k + 1) - dt && TimeOf(t, dt, k - 1) == TimeOf(t, dt, k + 1) - 2.0 * dt
    ensures TimeOf(t, dt, -1) == t - dt
  {
  }

  lemma MultistepStateExact(n: nat, rho: real, dt: real, q: Solution, u: real, s: State)
    requires MultistepDivisor(rho) != 0.0 && forall i :: 0 <= i < n ==> q(i).c3 == 0.0
    requires OnFormula(n, MultistepFor(rho), dt, s, StateOf(n, q, u - dt), StateOf(n, q, u - 2.0 * dt))
    requires s.xp == StateOf(n, q, u).xp
    ensures s == StateOf(n, q, u)
  {
    var c, m1, m2 := MultistepFor(rho), StateOf(n, q, u - dt), StateOf(n, q, u - 2.0 * dt);
    hide MultistepFor, MultistepDivisor, Cubic.At, Cubic.Slope, Advance;
    forall i | 0 <= i < n
      ensures s.x[i] == StateOf(n, q, u).x[i]
    {
      assert OnFormulaAt(c, dt, s, m1, m2, i);
      MultistepExact(rho, q(i), u, dt);
    }
  }

  /** The derivatives at both stages are those of the polynomial. */
  ghost predicate ExactStages(
      p: Problem, c: TwoStage, linear: bool, dt: real, tol: real, maxiter: int, q: Solution, t: real,
      m1: State, m2: State, log: seq<Output>, k: int)
    requires dt != 0.0 && 0 <= k < |log|
  {
    var u := TimeOf(t, dt, k + 1);
    var r := TwoStageNewton(p, c, linear, dt, tol, maxiter, u, Accepted(m1, m2, log, k - 1),
                            Accepted(m1, m2, log, k - 2));
    && r.Converged?
    && r.value.full.xp == StateOf(p.size, q, u).xp
    && r.value.mid.xp == StateOf(p.size, q, MidTime(c, dt, u)).xp
  }

  ghost function TwoStageLog(
      p: Problem, c: TwoStage, linear: bool, dt: real, tol: real, maxiter: int, tf: real, q: Solution,
      t: real): seq<Output>
    requires dt > 0.0
  {
    Integrate(TwoStageStep(p, c, linear, dt, tol, maxiter), dt, tf, t, StateOf(p.size, q, t),
              StateOf(p.size, q, t - dt)).log
  }

  /** Both two-stage methods then reproduce every polynomial of degree three. */
  lemma {:induction false} TwoStageRunReproduces(
      p: Problem, c: TwoStage, linear: bool, dt: real, tol: real, maxiter: int, tf: real, q: Solution, t: real, k: int)
    requires Consistent(c) && Quadrature(c) && dt > 0.0
    requires var m1, m2 := StateOf(p.size, q, t), StateOf(p.size, q, t - dt);
      var log := TwoStageLog(p, c, linear, dt, tol, maxiter, tf, q, t);
      -1 <= k < |log| && forall j :: 0 <= j < |log| ==>
        ExactStages(p, c, linear, dt, tol, maxiter, q, t, m1, m2, log, j)
    ensures var log := TwoStageLog(p, c, linear, dt, tol, maxiter, tf, q, t);
      Accepted(StateOf(p.size, q, t), StateOf(p.size, q, t - dt), log, k) == StateOf(p.size, q, TimeOf(t, dt, k + 1))
    decreases k + 1
  {
    hide StateOf, TwoStageNewton, TimeOf, Integrate, OnStages, Consistent, Quadrature, MidTime, TwoStageTested;
    var n, log := p.size, TwoStageLog(p, c, linear, dt, tol, maxiter, tf, q, t);
    var m1, m2 := StateOf(n, q, t), StateOf(n, q, t - dt);
    NextTime(t, dt, 0);
    if k >= 0 {
      TwoStageRunReproduces(p, c, linear, dt, tol, maxiter, tf, q, t, k - 1);
      RunIsChain(TwoStageStep(p, c, linear, dt, tol, maxiter), dt, tf, t, m1, m2);
      assert EntryFollows(TwoStageStep(p, c, linear, dt, tol, maxiter), dt, tf, t, m1, m2, log, k);
      assert ExactStages(p, c, linear, dt, tol, maxiter, q, t, m1, m2, log, k);
      var u, l1, l2 := TimeOf(t, dt, k + 1), Accepted(m1, m2, log, k - 1), Accepted(m1, m2, log, k - 2);
      TimesBefore(t, dt, k);
      TwoStageStepOnFormulas(p, c, linear, dt, tol, maxiter, u, l1, l2);
      TwoStageStateExact(n, c, dt, q, u, TwoStageNewton(p, c, linear, dt, tol, maxiter, u, l1, l2).value);
    }
  }

  lemma TwoStageStateExact(n: nat, c: TwoStage, dt: real, q: Solution, u: real, s: Stages)
    requires Quadrature(c) && OnStages(n, c, dt, s, StateOf(n, q, u - dt))
    requires s.full.xp == StateOf(n, q, u).xp && s.mid.xp == StateOf(n, q, MidTime(c, dt, u)).xp
    ensures s.full == StateOf(n, q, u)
  {
    hide Cubic.At, Cubic.Slope, StepX, StepXz, Quadrature, MidTime;
    forall i | 0 <= i < n
      ensures s.full.x[i] == StateOf(n, q, u).x[i]
    {
      assert OnStagesAt(c, dt, s, StateOf(n, q, u - dt), i);
      StepExact(c, q(i), u, dt);
    }
  }
}

// The runs of utils/dae-intg.cc as the program makes them: six state buffers that rotate by exchanging references,
// updated in place by the predictors and the Newton loops.
module Integrator {
  import opened LinearAlgebra
  import opened Sums
  import opened DaeCoefficients
  import opened TwoStageCoefficients
  import opened Integration
  import opened TwoStageIntegration

  ghost predicate IsZero(s: State) {
    |s.x| == |s.xp| && forall i :: 0 <= i < |s.x| ==> s.x[i] == 0.0 && s.xp[i] == 0.0
  }

  lemma BackValues(dt: real, s: State)
    requires |s.x| == |s.xp|
    ensures var back := StepBack(dt, s);
      |back.x| == |s.x| && back.xp == s.xp && forall i :: 0 <= i < |s.x| ==> back.x[i] == Back(dt, s.x[i], s.xp[i])
  {
  }

  class Buffers {
    const n: nat
    var X: array<real>
    var XP: array<real>
    var Xm1: array<real>
    var XPm1: array<real>
    var Xm2: array<real>
    var XPm2: array<real>

    /** Six different buffers of the size of the problem. */
    ghost predicate Valid()
      reads this
    {
      && X.Length == XP.Length == Xm1.Length == XPm1.Length == Xm2.Length == XPm2.Length == n
      && X != XP && X != Xm1 && X != XPm1 && X != Xm2 && X != XPm2
      && XP != Xm1 && XP != XPm1 && XP != Xm2 && XP != XPm2
      && Xm1 != XPm1 && Xm1 != Xm2 && Xm1 != XPm2
      && XPm1 != Xm2 && XPm1 != XPm2 && Xm2 != XPm2
    }

    ghost function Repr(): set<object>
      reads this
    {
      {X, XP, Xm1, XPm1, Xm2, XPm2}
    }

    function Current(): State
      reads this, X, XP
    {
      State(X[..], XP[..])
    }

    /** The last accepted sample, and the one before it. */
    function Last(): State
      reads this, Xm1, XPm1
    {
      State(Xm1[..], XPm1[..])
    }

    function BeforeLast(): State
      reads this, Xm2, XPm2
    {
      State(Xm2[..], XPm2[..])
    }

    /** The buffers, reset to zero, with the initial state in the current ones. */
    constructor (x: seq<real>, xp: seq<real>)
      requires |x| == |xp|
      ensures Valid() && fresh(Repr()) && n == |x| && Current() == State(x, xp) && IsZero(Last()) &&
              IsZero(BeforeLast())
    {
      n := |x|;
      X, XP := new real[|x|], new real[|x|];
      Xm1, XPm1 := new real[|x|](_ => 0.0), new real[|x|](_ => 0.0);
      Xm2, XPm2 := new real[|x|](_ => 0.0), new real[|x|](_ => 0.0);
      new;
      Load(x, xp);
    }

    /** What the init function of the problem writes. */
    method Load(x: seq<real>, xp: seq<real>)
      requires Valid() && |x| == |xp| == n
      modifies X, XP
      ensures Current() == State(x, xp)
    {
      for k := 0 to n
        invariant X[..k] == x[..k] && XP[..k] == xp[..k]
      {
        X[k] := x[k];
        XP[k] := xp[k];
      }
    }

    /** Before the first step: the initial state is the last one, and the history goes straight back one step. */
    method Begin(dt: real)
      requires Valid()
      modifies this, Xm1, XPm1
      ensures Valid() && Repr() == old(Repr())
      ensures Last() == old(Current()) && BeforeLast() == StepBack(dt, old(Current()))
    {
      hide StepBack;
      StartHistory(dt);
      Flip();
    }

    /** The history before the initial state: a straight line. */
    method StartHistory(dt: real)
      requires Valid()
      modifies Xm1, XPm1
      ensures Last() == StepBack(dt, Current())
    {
      ghost var s := Current();
      ghost var back := StepBack(dt, s);
      hide StepBack, Back;
      for k := 0 to n
        invariant Current() == s
        invariant forall i :: 0 <= i < k ==> XPm1[i] == s.xp[i] && Xm1[i] == Back(dt, s.x[i], s.xp[i])
      {
        XPm1[k] := XP[k];
        Xm1[k] := Back(dt, X[k], XP[k]);
      }
      BackValues(dt, s);
      assert Xm1[..] == back.x && XPm1[..] == back.xp;
    }

    /** method_radau_II adds the history to buffers that it counts on being zero. */
    method BeginByAdding(dt: real)
      requires Valid() && IsZero(Last())
      modifies this, Xm1, XPm1
      ensures Valid() && Repr() == old(Repr())
      ensures Last() == old(Current()) && BeforeLast() == StepBack(dt, old(Current()))
    {
      hide StepBack;
      AddHistory(dt);
      Flip();
    }

    method AddHistory(dt: real)
      requires Valid() && IsZero(Last())
      modifies Xm1, XPm1
      ensures Last() == StepBack(dt, Current())
    {
      ghost var s := Current();
      ghost var back := StepBack(dt, s);
      hide StepBack, Back;
      for k := 0 to n
        invariant Current() == s
        invariant forall i :: 0 <= i < k ==> XPm1[i] == s.xp[i] && Xm1[i] == Back(dt, s.x[i], s.xp[i])
        invariant forall i :: k <= i < n ==> XPm1[i] == 0.0 && Xm1[i] == 0.0
      {
        XPm1[k] := XPm1[k] + XP[k];
        Xm1[k] := Xm1[k] + Back(dt, X[k], XP[k]);
      }
      BackValues(dt, s);
      assert Xm1[..] == back.x && XPm1[..] == back.xp;
    }

    /** The current buffers become the last ones, those the ones before, and the oldest are free for the next step. */
    method Flip()
      requires Valid()
      modifies this
      ensures Valid() && Repr() == old(Repr())
      ensures Last() == old(Current()) && BeforeLast() == old(Last())
      ensures X == old(Xm2) && XP == old(XPm2)
    {
      var p := Xm2;
      Xm2 := Xm1;
      Xm1 := X;
      X := p;
      p := XPm2;
      XPm2 := XPm1;
      XPm1 := XP;
      XP := p;
    }

    // ----- method_multistep

    method PredictMultistep(c: Multistep, dt: real)
      requires Valid()
      modifies X, XP
      ensures Current() == MultistepPredict(n, c, dt, Last(), BeforeLast())
    {
      ghost var m1, m2 := Last(), BeforeLast();
      ghost var xp := MultistepSlopes(dt, m1, m2);
      hide MultistepSlope, Advance;
      var ir := n;
      while ir > 0
        invariant 0 <= ir <= n && Last() == m1 && BeforeLast() == m2
        invariant forall i :: ir <= i < n ==> XP[i] == xp(i) && X[i] == MultistepStates(c, dt, xp, m1, m2)(i)
      {
        ir := ir - 1;
        assert AsVec(m1.x)(ir) == Xm1[ir] && AsVec(m1.xp)(ir) == XPm1[ir];
        assert AsVec(m2.x)(ir) == Xm2[ir] && AsVec(m2.xp)(ir) == XPm2[ir];
        var xP := MultistepSlope(dt, Xm1[ir], XPm1[ir], Xm2[ir], XPm2[ir]);
        assert xP == xp(ir);
        X[ir] := Advance(c, dt, xP, Xm1[ir], XPm1[ir], Xm2[ir], XPm2[ir]);
        XP[ir] := xP;
      }
      ghost var s := MultistepPredict(n, c, dt, m1, m2);
      assert X[..] == s.x && XP[..] == s.xp;
    }

    method CorrectMultistep(p: Problem, c: Multistep, dt: real, t: real)
      requires Valid() && p.size == n
      modifies X, XP
      ensures Current() == MultistepCorrect(p, c, dt, t)(old(Current()))
    {
      hide MultistepSolution, Added, Gain;
      var coef := Gain(c, dt);
      ghost var s := Current();
      var sol := MultistepSolution(p, coef, t, Current());
      assert MultistepCorrect(p, c, dt, t)(s) == MultistepCorrection(p, coef, s, sol);
      hide MultistepCorrect, MultistepCorrection;
      UpdateState(n, coef, sol, X, XP);
      StateCorrected(p, coef, s, sol, Current());
    }

    /** The Newton loop. */
    method SolveMultistep(p: Problem, c: Multistep, dt: real, tol: real, maxiter: int, t: real)
      returns (ok: bool, test: real)
      requires Valid() && p.size == n
      modifies X, XP
      ensures Newton(Tested(p, t), MultistepCorrect(p, c, dt, t), tol, Allowed(maxiter), old(Current()))
           == if ok then Converged(Current(), test) else NoConvergence
    {
      hide MultistepCorrect;
      var j := 0;
      while true
        invariant 0 <= j <= Allowed(maxiter)
        invariant Newton(Tested(p, t), MultistepCorrect(p, c, dt, t), tol, Allowed(maxiter), old(Current()))
               == Newton(Tested(p, t), MultistepCorrect(p, c, dt, t), tol, Allowed(maxiter) - j, Current())
        decreases Allowed(maxiter) - j
      {
        test := p.norm(n, p.func(X[..], XP[..], t));
        assert test == Tested(p, t)(Current());
        if test < tol {
          return true, test;
        }
        j := j + 1;
        if j > maxiter {
          return false, test;
        }
        CorrectMultistep(p, c, dt, t);
      }
    }

    /** One step: predict and solve. */
    method StepMultistep(p: Problem, c: Multistep, dt: real, tol: real, maxiter: int, t: real)
      returns (ok: bool, test: real)
      requires Valid() && p.size == n
      modifies X, XP
      ensures MultistepNewton(p, c, dt, tol, maxiter, t, Last(), BeforeLast())
           == if ok then Converged(Current(), test) else NoConvergence
    {
      hide MultistepPredict, MultistepCorrect, Tested, Newton;
      PredictMultistep(c, dt);
      ok, test := SolveMultistep(p, c, dt, tol, maxiter, t);
    }

    /** One pass of the time loop: the step, and on convergence the exchange of the buffers. */
    method AdvanceMultistep(p: Problem, c: Multistep, dt: real, tol: real, maxiter: int, t: real)
      returns (ok: bool, test: real)
      requires Valid() && p.size == n && dt != 0.0
      modifies this, Repr()
      ensures Valid() && Repr() == old(Repr())
      ensures MultistepStep(p, c, dt, tol, maxiter)(t, old(Last()), old(BeforeLast()))
           == if ok then Converged(Last(), test) else NoConvergence
      ensures if ok then BeforeLast() == old(Last()) else Last() == old(Last()) && BeforeLast() == old(BeforeLast())
    {
      hide MultistepNewton;
      ok, test := StepMultistep(p, c, dt, tol, maxiter, t);
      if ok {
        Flip();
      }
    }

    /** A whole run: the lines it prints, whether it completes, and the history it leaves, are those of the
        specification from the history it starts with. */
    method RunMultistep(p: Problem, rho: real, ti: real, dt: real, tf: real, tol: real, maxiter: int)
      returns (completed: bool, log: seq<Output>)
      requires Valid() && p.size == n && dt > 0.0 && MultistepDivisor(rho) != 0.0
      modifies this, Repr()
      ensures Valid() && Repr() == old(Repr())
      ensures Run(completed, log)
           == Integrate(MultistepStep(p, MultistepFor(rho), dt, tol, maxiter), dt, tf, ti, old(Last()),
                        old(BeforeLast()))
      ensures Last() == Accepted(old(Last()), old(BeforeLast()), log, |log| - 1)
      ensures BeforeLast() == Accepted(old(Last()), old(BeforeLast()), log, |log| - 2)
    {
      hide MultistepFor, MultistepDivisor, Integrate, MultistepStep, StepsLeft, Extends, Accepted;
      var c := MultistepFor(rho);
      ghost var step := MultistepStep(p, c, dt, tol, maxiter);
      ghost var m1, m2 := Last(), BeforeLast();
      ghost var whole := Integrate(step, dt, tf, ti, m1, m2);
      LogEmpty(whole, m1, m2);
      var t := ti;
      log := [];
      while t < tf
        invariant Valid() && Repr() == old(Repr())
        invariant Extends(whole, log, Integrate(step, dt, tf, t, Last(), BeforeLast()))
        invariant Last() == Accepted(m1, m2, log, |log| - 1) && BeforeLast() == Accepted(m1, m2, log, |log| - 2)
        decreases StepsLeft(dt, t, tf)
      {
        StepTaken(dt, t, tf);
        ghost var l1, l2, t0 := Last(), BeforeLast(), t;
        t := t + dt;
        var ok, test := AdvanceMultistep(p, c, dt, tol, maxiter, t);
        if !ok {
          RunFails(whole, log, step, dt, tf, t0, l1, l2, t);
          return false, log;
        }
        var line := Output(t, test, Last());
        RunGoes(whole, log, step, dt, tf, t0, l1, l2, t, Last(), test);
        AcceptedNext(m1, m2, log, line);
        log := log + [line];
      }
      RunEnds(whole, log, step, dt, tf, t, Last(), BeforeLast());
      return true, log;
    }

    // ----- method_cubic and method_radau_II

    /** The buffers of the intermediate stage are apart from the six others. */
    ghost predicate Apart(Xz: array<real>, XPz: array<real>)
      reads this
    {
      Xz.Length == XPz.Length == n && Xz != XPz && Xz !in Repr() && XPz !in Repr()
    }

    method PredictLine(c: TwoStage, dt: real, Xz: array<real>, XPz: array<real>)
      requires Valid() && Apart(Xz, XPz) && dt != 0.0
      modifies X, XP, Xz, XPz
      ensures Stages(Current(), State(Xz[..], XPz[..])) == TwoStagePredict(n, c, true, dt, Last(), BeforeLast())
    {
      ghost var m1, m2 := Last(), BeforeLast();
      ghost var s := TwoStagePredict(n, c, true, dt, m1, m2);
      hide Line, MidLine;
      for k := 0 to n
        invariant Last() == m1 && BeforeLast() == m2
        invariant forall i :: 0 <= i < k ==>
                  X[i] == s.full.x[i] && XP[i] == s.full.xp[i] && Xz[i] == s.mid.x[i] && XPz[i] == s.mid.xp[i]
      {
        var xm1, xPm1 := Xm1[k], XPm1[k];
        assert AsVec(m1.x)(k) == xm1 && AsVec(m1.xp)(k) == xPm1;
        X[k] := Line(dt, xm1, xPm1);
        XP[k] := xPm1;
        Xz[k] := MidLine(c, dt, xm1, xPm1);
        XPz[k] := xPm1;
      }
      assert X[..] == s.full.x && XP[..] == s.full.xp && Xz[..] == s.mid.x && XPz[..] == s.mid.xp;
    }

    method PredictStages(c: TwoStage, dt: real, Xz: array<real>, XPz: array<real>)
      requires Valid() && Apart(Xz, XPz) && dt != 0.0
      modifies X, XP, Xz, XPz
      ensures Stages(Current(), State(Xz[..], XPz[..])) == TwoStagePredict(n, c, false, dt, Last(), BeforeLast())
    {
      ghost var m1, m2 := Last(), BeforeLast();
      ghost var s := TwoStagePredict(n, c, false, dt, m1, m2);
      hide PredictedSlope, StepX, StepXz;
      for k := 0 to n
        invariant Last() == m1 && BeforeLast() == m2
        invariant forall i :: 0 <= i < k ==>
                  X[i] == s.full.x[i] && XP[i] == s.full.xp[i] && Xz[i] == s.mid.x[i] && XPz[i] == s.mid.xp[i]
      {
        var xm1, xPm1, xm2, xPm2 := Xm1[k], XPm1[k], Xm2[k], XPm2[k];
        assert AsVec(m1.x)(k) == xm1 && AsVec(m1.xp)(k) == xPm1 && AsVec(m2.x)(k) == xm2 && AsVec(m2.xp)(k) == xPm2;
        var xP := PredictedSlope(c.full, dt, xm1, xPm1, xm2, xPm2);
        var xPz := PredictedSlope(c.mid, dt, xm1, xPm1, xm2, xPm2);
        var x := StepX(c, dt, xm1, xPm1, xPz, xP);
        X[k] := x;
        XP[k] := xP;
        Xz[k] := StepXz(c, dt, x, xm1, xPm1, xP);
        XPz[k] := xPz;
      }
      assert X[..] == s.full.x && XP[..] == s.full.xp && Xz[..] == s.mid.x && XPz[..] == s.mid.xp;
    }

    method PredictTwoStage(c: TwoStage, linear: bool, dt: real, Xz: array<real>, XPz: array<real>)
      requires Valid() && Apart(Xz, XPz) && dt != 0.0
      modifies X, XP, Xz, XPz
      ensures Stages(Current(), State(Xz[..], XPz[..])) == TwoStagePredict(n, c, linear, dt, Last(), BeforeLast())
    {
      hide TwoStagePredict;
      if linear {
        PredictLine(c, dt, Xz, XPz);
      } else {
        PredictStages(c, dt, Xz, XPz);
      }
    }

    method CorrectStages(p: Problem, c: TwoStage, dt: real, t: real, Xz: array<real>, XPz: array<real>)
      requires Valid() && Apart(Xz, XPz) && p.size == n
      modifies X, XP, Xz, XPz
      ensures Stages(Current(), State(Xz[..], XPz[..]))
           == TwoStageCorrect(p, c, dt, t)(old(Stages(Current(), State(Xz[..], XPz[..]))))
    {
      ghost var s := Stages(Current(), State(Xz[..], XPz[..]));
      var sol := TwoStageSolution(p, c, dt, t, Stages(Current(), State(Xz[..], XPz[..])));
      assert TwoStageCorrect(p, c, dt, t)(s) == TwoStageCorrection(n, c, dt, s, sol);
      hide TwoStageSolution, TwoStageCorrect, TwoStageCorrection, FullDelta, MidDelta, Upper;
      UpdateStages(n, c, dt, sol, Upper(n, sol), X, XP, Xz, XPz);
      StagesCorrected(n, c, dt, s, sol, Stages(Current(), State(Xz[..], XPz[..])));
    }

    /** The Newton loop of both stages. */
    method SolveStages(p: Problem, c: TwoStage, dt: real, tol: real, maxiter: int, t: real, Xz: array<real>,
                       XPz: array<real>)
      returns (ok: bool, test: real)
      requires Valid() && Apart(Xz, XPz) && p.size == n
      modifies X, XP, Xz, XPz
      ensures Newton(TwoStageTested(p, c, dt, t), TwoStageCorrect(p, c, dt, t), tol, Allowed(maxiter),
                     old(Stages(Current(), State(Xz[..], XPz[..]))))
           == if ok then Converged(Stages(Current(), State(Xz[..], XPz[..])), test) else NoConvergence
    {
      hide TwoStageCorrect, TwoStageResidual;
      var j := 0;
      while true
        invariant 0 <= j <= Allowed(maxiter)
        invariant Newton(TwoStageTested(p, c, dt, t), TwoStageCorrect(p, c, dt, t), tol, Allowed(maxiter),
                         old(Stages(Current(), State(Xz[..], XPz[..]))))
               == Newton(TwoStageTested(p, c, dt, t), TwoStageCorrect(p, c, dt, t), tol, Allowed(maxiter) - j,
                         Stages(Current(), State(Xz[..], XPz[..])))
        decreases Allowed(maxiter) - j
      {
        test := p.norm(2 * n, TwoStageResidual(p, c, dt, t, Stages(Current(), State(Xz[..], XPz[..]))));
        assert test == TwoStageTested(p, c, dt, t)(Stages(Current(), State(Xz[..], XPz[..])));
        if test < tol {
          return true, test;
        }
        j := j + 1;
        if j > maxiter {
          return false, test;
        }
        CorrectStages(p, c, dt, t, Xz, XPz);
      }
    }

    /** One step of both stages: predict and solve. */
    method StepStages(p: Problem, c: TwoStage, linear: bool, dt: real, tol: real, maxiter: int, t: real,
                      Xz: array<real>, XPz: array<real>) returns (ok: bool, test: real)
      requires Valid() && Apart(Xz, XPz) && p.size == n && dt != 0.0
      modifies X, XP, Xz, XPz
      ensures TwoStageNewton(p, c, linear, dt, tol, maxiter, t, Last(), BeforeLast())
           == if ok then Converged(Stages(Current(), State(Xz[..], XPz[..])), test) else NoConvergence
    {
      hide TwoStagePredict, TwoStageCorrect, TwoStageTested, Newton;
      PredictTwoStage(c, linear, dt, Xz, XPz);
      ok, test := SolveStages(p, c, dt, tol, maxiter, t, Xz, XPz);
    }

    /** The same for the two-stage methods. */
    method AdvanceStages(p: Problem, c: TwoStage, linear: bool, dt: real, tol: real, maxiter: int, t: real,
                         Xz: array<real>, XPz: array<real>) returns (ok: bool, test: real)
      requires Valid() && Apart(Xz, XPz) && p.size == n && dt != 0.0
      modifies this, Repr(), Xz, XPz
      ensures Valid() && Repr() == old(Repr())
      ensures TwoStageStep(p, c, linear, dt, tol, maxiter)(t, old(Last()), old(BeforeLast()))
           == if ok then Converged(Last(), test) else NoConvergence
      ensures if ok then BeforeLast() == old(Last()) else Last() == old(Last()) && BeforeLast() == old(BeforeLast())
    {
      hide TwoStageNewton;
      ok, test := StepStages(p, c, linear, dt, tol, maxiter, t, Xz, XPz);
      if ok {
        Flip();
      }
    }

    /** A whole run of either method with either predictor. */
    method RunStages(p: Problem, c: TwoStage, linear: bool, ti: real, dt: real, tf: real, tol: real, maxiter: int)
      returns (completed: bool, log: seq<Output>)
      requires Valid() && p.size == n && dt > 0.0
      modifies this, Repr()
      ensures Valid() && Repr() == old(Repr())
      ensures Run(completed, log)
           == Integrate(TwoStageStep(p, c, linear, dt, tol, maxiter), dt, tf, ti, old(Last()), old(BeforeLast()))
      ensures Last() == Accepted(old(Last()), old(BeforeLast()), log, |log| - 1)
      ensures BeforeLast() == Accepted(old(Last()), old(BeforeLast()), log, |log| - 2)
    {
      hide Integrate, TwoStageNewton, TwoStageStep, StepsLeft, Extends, Accepted;
      ghost var step := TwoStageStep(p, c, linear, dt, tol, maxiter);
      ghost var m1, m2 := Last(), BeforeLast();
      ghost var whole := Integrate(step, dt, tf, ti, m1, m2);
      LogEmpty(whole, m1, m2);
      var Xz, XPz := new real[n], new real[n];
      var t := ti;
      log := [];
      while t < tf
        invariant Valid() && Apart(Xz, XPz) && fresh(Xz) && fresh(XPz) && Repr() == old(Repr())
        invariant Extends(whole, log, Integrate(step, dt, tf, t, Last(), BeforeLast()))
        invariant Last() == Accepted(m1, m2, log, |log| - 1) && BeforeLast() == Accepted(m1, m2, log, |log| - 2)
        decreases StepsLeft(dt, t, tf)
      {
        StepTaken(dt, t, tf);
        ghost var l1, l2, t0 := Last(), BeforeLast(), t;
        t := t + dt;
        var ok, test := AdvanceStages(p, c, linear, dt, tol, maxiter, t, Xz, XPz);
        if !ok {
          RunFails(whole, log, step, dt, tf, t0, l1, l2, t);
          return false, log;
        }
        var line := Output(t, test, Last());
        RunGoes(whole, log, step, dt, tf, t0, l1, l2, t, Last(), test);
        AcceptedNext(m1, m2, log, line);
        log := log + [line];
      }
      RunEnds(whole, log, step, dt, tf, t, Last(), BeforeLast());
      return true, log;
    }
  }

  /** Component i of a correction. */
  ghost predicate CorrectedAt(n: nat, c: TwoStage, dt: real, s: Stages, s': Stages, d: Vec, i: int)
    requires Sized(n, s.full) && Sized(n, s.mid) && Sized(n, s'.full) && Sized(n, s'.mid) && 0 <= i < n
  {
    && s'.full.x[i] == s.full.x[i] + FullDelta(c, dt, d(i), Upper(n, d)(i))
    && s'.mid.x[i] == s.mid.x[i] + MidDelta(c, dt, d(i), Upper(n, d)(i))
    && s'.full.xp[i] == s.full.xp[i] + d(i)
    && s'.mid.xp[i] == s.mid.xp[i] + Upper(n, d)(i)
  }

  lemma StagesCorrected(n: nat, c: TwoStage, dt: real, s: Stages, d: Vec, r: Stages)
    requires Sized(n, s.full) && Sized(n, s.mid) && Sized(n, r.full) && Sized(n, r.mid)
    requires forall i :: 0 <= i < n ==> CorrectedAt(n, c, dt, s, r, d, i)
    ensures r == TwoStageCorrection(n, c, dt, s, d)
  {
    hide FullDelta, MidDelta;
    var s' := TwoStageCorrection(n, c, dt, s, d);
    assert Sized(n, s'.full) && Sized(n, s'.mid);
    hide TwoStageCorrection;
    forall i | 0 <= i < n
      ensures r.full.x[i] == s'.full.x[i] && r.full.xp[i] == s'.full.xp[i]
      ensures r.mid.x[i] == s'.mid.x[i] && r.mid.xp[i] == s'.mid.xp[i]
    {
      assert CorrectedAt(n, c, dt, s, r, d, i);
      CorrectedValues(n, c, dt, s, d, i);
    }
    assert r.full.x == s'.full.x && r.full.xp == s'.full.xp && r.mid.x == s'.mid.x && r.mid.xp == s'.mid.xp;
  }

  lemma StateCorrected(p: Problem, coef: real, s: State, d: Vec, r: State)
    requires Sized(p.size, s) && Sized(p.size, r)
    requires forall i :: 0 <= i < p.size ==> r.x[i] == Added(s.x[i], coef, d(i)) && r.xp[i] == Added(s.xp[i], 1.0, d(i))
    ensures r == MultistepCorrection(p, coef, s, d)
  {
    hide Added;
    var s' := MultistepCorrection(p, coef, s, d);
    assert r.x == s'.x && r.xp == s'.xp;
  }

  /** The update loop of a Newton step. */
  method UpdateState(n: nat, coef: real, d: Vec, X: array<real>, XP: array<real>)
    requires X.Length == XP.Length == n && X != XP
    modifies X, XP
    ensures forall i :: 0 <= i < n ==> X[i] == Added(old(X[i]), coef, d(i)) && XP[i] == Added(old(XP[i]), 1.0, d(i))
  {
    var ir := n;
    while ir > 0
      invariant 0 <= ir <= n
      invariant forall i :: ir <= i < n ==>
                X[i] == Added(old(X[i]), coef, d(i)) && XP[i] == Added(old(XP[i]), 1.0, d(i))
      invariant forall i :: 0 <= i < ir ==> X[i] == old(X[i]) && XP[i] == old(XP[i])
    {
      ir := ir - 1;
      var dxP := d(ir);
      XP[ir] := XP[ir] + dxP;
      X[ir] := X[ir] + coef * dxP;
    }
  }

  /** The update loop of a Newton step of two stages. */
  method UpdateStages(n: nat, c: TwoStage, dt: real, d0: Vec, dz: Vec,
                      X: array<real>, XP: array<real>, Xz: array<real>, XPz: array<real>)
    requires X.Length == XP.Length == Xz.Length == XPz.Length == n
    requires X != XP && X != Xz && X != XPz && XP != Xz && XP != XPz && Xz != XPz
    modifies X, XP, Xz, XPz
    ensures forall i :: 0 <= i < n ==> X[i] == old(X[i]) + FullDelta(c, dt, d0(i), dz(i)) && XP[i] == old(XP[i]) + d0(i)
    ensures forall i :: 0 <= i < n ==>
            Xz[i] == old(Xz[i]) + MidDelta(c, dt, d0(i), dz(i)) && XPz[i] == old(XPz[i]) + dz(i)
  {
    hide FullDelta, MidDelta;
    var ir := n;
    while ir > 0
      invariant 0 <= ir <= n
      invariant forall i :: ir <= i < n ==>
                X[i] == old(X[i]) + FullDelta(c, dt, d0(i), dz(i)) && XP[i] == old(XP[i]) + d0(i)
      invariant forall i :: ir <= i < n ==>
                Xz[i] == old(Xz[i]) + MidDelta(c, dt, d0(i), dz(i)) && XPz[i] == old(XPz[i]) + dz(i)
      invariant forall i :: 0 <= i < ir ==>
                X[i] == old(X[i]) && XP[i] == old(XP[i]) && Xz[i] == old(Xz[i]) && XPz[i] == old(XPz[i])
    {
      ir := ir - 1;
      var dxP0, dxPz := d0(ir), dz(ir);
      XP[ir] := XP[ir] + dxP0;
      XPz[ir] := XPz[ir] + dxPz;
      X[ir] := X[ir] + FullDelta(c, dt, dxP0, dxPz);
      Xz[ir] := Xz[ir] + MidDelta(c, dt, dxP0, dxPz);
    }
  }

  lemma IntegrateUnfolds(step: Step, dt: real, tf: real, t: real, m1: State, m2: State)
    requires dt > 0.0
    ensures t >= tf ==> Integrate(step, dt, tf, t, m1, m2) == Run(true, [])
    ensures t < tf ==> match step(t + dt, m1, m2)
      case NoConvergence => Integrate(step, dt, tf, t, m1, m2) == Run(false, [])
      case Converged(s, test) =>
        var next := Integrate(step, dt, tf, t + dt, s, m1);
        Integrate(step, dt, tf, t, m1, m2) == Run(next.completed, [Output(t + dt, test, s)] + next.log)
  {
  }

  /** A run is what has been printed followed by the rest of the run. */
  ghost predicate Extends(whole: Run, log: seq<Output>, rest: Run) {
    whole == Run(rest.completed, log + rest.log)
  }

  lemma ExtendsOne(whole: Run, log: seq<Output>, rest: Run, line: Output, next: Run)
    requires Extends(whole, log, rest) && rest == Run(next.completed, [line] + next.log)
    ensures Extends(whole, log + [line], next)
  {
  }

  lemma LogEmpty(whole: Run, m1: State, m2: State)
    ensures Extends(whole, [], whole) && Accepted(m1, m2, [], -1) == m1 && Accepted(m1, m2, [], -2) == m2
  {
  }

  lemma RunGoes(whole: Run, log: seq<Output>, step: Step, dt: real, tf: real, t: real, m1: State, m2: State,
                t': real, s: State, test: real)
    requires dt > 0.0 && t < tf && t' == t + dt && step(t', m1, m2) == Converged(s, test)
    requires Extends(whole, log, Integrate(step, dt, tf, t, m1, m2))
    ensures Extends(whole, log + [Output(t', test, s)], Integrate(step, dt, tf, t', s, m1))
  {
    hide Integrate, Extends;
    IntegrateUnfolds(step, dt, tf, t, m1, m2);
    ExtendsOne(whole, log, Integrate(step, dt, tf, t, m1, m2), Output(t', test, s), Integrate(step, dt, tf, t', s, m1));
  }

  lemma RunFails(whole: Run, log: seq<Output>, step: Step, dt: real, tf: real, t: real, m1: State, m2: State, t': real)
    requires dt > 0.0 && t < tf && t' == t + dt && step(t', m1, m2) == NoConvergence
    requires Extends(whole, log, Integrate(step, dt, tf, t, m1, m2))
    ensures whole == Run(false, log)
  {
    hide Integrate;
    IntegrateUnfolds(step, dt, tf, t, m1, m2);
  }

  lemma RunEnds(whole: Run, log: seq<Output>, step: Step, dt: real, tf: real, t: real, m1: State, m2: State)
    requires dt > 0.0 && t >= tf && Extends(whole, log, Integrate(step, dt, tf, t, m1, m2))
    ensures whole == Run(true, log)
  {
    hide Integrate;
    IntegrateUnfolds(step, dt, tf, t, m1, m2);
  }

  lemma AcceptedNext(m1: State, m2: State, log: seq<Output>, line: Output)
    ensures Accepted(m1, m2, log + [line], |log|) == line.s
    ensures Accepted(m1, m2, log + [line], |log| - 1) == Accepted(m1, m2, log, |log| - 1)
  {
  }

  // ----- the methods, from the initial state of the problem

  method MethodMultistep(p: Problem, x: seq<real>, xp: seq<real>, rho: real, ti: real, dt: real, tf: real, tol: real,
                         maxiter: int)
    returns (completed: bool, log: seq<Output>)
    requires |x| == |xp| == p.size && dt > 0.0 && MultistepDivisor(rho) != 0.0
    ensures Run(completed, log) == Integrate(MultistepStep(p, MultistepFor(rho), dt, tol, maxiter), dt, tf, ti,
                                             State(x, xp), StepBack(dt, State(x, xp)))
  {
    hide MultistepFor, MultistepDivisor, Integrate, StepBack;
    var state := new Buffers(x, xp);
    state.Begin(dt);
    completed, log := state.RunMultistep(p, rho, ti, dt, tf, tol, maxiter);
  }

  method MethodCubic(p: Problem, x: seq<real>, xp: seq<real>, rho: real, linear: bool, ti: real, dt: real, tf: real,
                     tol: real, maxiter: int)
    returns (completed: bool, log: seq<Output>)
    requires |x| == |xp| == p.size && dt > 0.0 && rho != 0.0 && rho != -1.0
    ensures Run(completed, log) == Integrate(TwoStageStep(p, CubicFor(rho), linear, dt, tol, maxiter), dt, tf, ti,
                                             State(x, xp), StepBack(dt, State(x, xp)))
  {
    hide CubicFor, Integrate, StepBack;
    var state := new Buffers(x, xp);
    state.Begin(dt);
    completed, log := state.RunStages(p, CubicFor(rho), linear, ti, dt, tf, tol, maxiter);
  }

  method MethodRadauII(p: Problem, x: seq<real>, xp: seq<real>, linear: bool, ti: real, dt: real, tf: real, tol: real,
                       maxiter: int)
    returns (completed: bool, log: seq<Output>)
    requires |x| == |xp| == p.size && dt > 0.0
    ensures Run(completed, log) == Integrate(TwoStageStep(p, RadauFor(), linear, dt, tol, maxiter), dt, tf, ti,
                                             State(x, xp), StepBack(dt, State(x, xp)))
  {
    hide RadauFor, Integrate, StepBack;
    var state := new Buffers(x, xp);
    state.BeginByAdding(dt);
    completed, log := state.RunStages(p, RadauFor(), linear, ti, dt, tf, tol, maxiter);
  }
}

// The model of utils/GPC.c iterated forward: every past and every plan have a trajectory, so that what the controller
// minimises is the outcome of its own model.
module Simulation {
  import opened LinearAlgebra
  import opened Sums
  import opened BlockMatrices
  import opened PredictionTheory
  import opened PredictionMatrices
  import opened ControlTheory
  import opened ExtendedControl
  import opened MatrixLibrary
  import Gpc

  // ----- the model, step by step

  ghost function WithNext(M: Model, y: Signal, u: Signal, e: Signal, k: int): Signal {
    (j, r) => if j == k then NextOutput(M, y, u, e, k, r) else y(j, r)
  }

  /** The outputs y before time t, followed by n steps of the model. */
  ghost function Forward(M: Model, y: Signal, u: Signal, e: Signal, t: int, n: nat): Signal {
    if n == 0 then y else WithNext(M, Forward(M, y, u, e, t, n - 1), u, e, t + n - 1)
  }

  lemma PastAgrees(M: Model, y: Signal, y': Signal, k: int, r: int)
    requires forall j, c :: j < k ==> y(j, c) == y'(j, c)
    ensures FromPast(M, Output, y, 0, k, r) == FromPast(M, Output, y', 0, k, r)
  {
    var f, f' := PastTerms(M, Output, y, 0, k, r), PastTerms(M, Output, y', 0, k, r);
    forall j | 0 <= j < M.na
      ensures f(j) == f'(j)
    {
      hide Block;
      ApplyEq(M.p, Block(M, Output, 0, j), Block(M, Output, 0, j), r, Row(y, k - 1 - j), Row(y', k - 1 - j));
    }
    SumEq(0, M.na, f, f');
  }

  /** The equation at time k only looks at outputs up to k. */
  lemma EquationAgrees(M: Model, y: Signal, y': Signal, u: Signal, e: Signal, k: int)
    requires forall j, c :: j <= k ==> y(j, c) == y'(j, c)
    requires EquationsAt(M, y, u, e, k)
    ensures EquationsAt(M, y', u, e, k)
  {
    hide FromPast, Apply;
    forall r | 0 <= r < M.p
      ensures Equation(M, y', u, e, k, r)
    {
      assert Equation(M, y, u, e, k, r);
      PastAgrees(M, y, y', k, r);
    }
  }

  lemma NextSatisfies(M: Model, y: Signal, u: Signal, e: Signal, k: int)
    ensures EquationsAt(M, WithNext(M, y, u, e, k), u, e, k)
  {
    var y' := WithNext(M, y, u, e, k);
    forall r | 0 <= r < M.p
      ensures Equation(M, y', u, e, k, r)
    {
      PastAgrees(M, y, y', k, r);
      hide FromPast, Apply;
      assert y'(k, r) == NextOutput(M, y, u, e, k, r);
    }
  }

  /** The iterated model is a trajectory, and leaves the past alone. */
  lemma {:induction false} ForwardIsTrajectory(M: Model, y: Signal, u: Signal, e: Signal, t: int, n: nat)
    requires forall k :: t <= k < t + n ==> QuietAt(M, e, k)
    ensures forall j, c :: j < t ==> Forward(M, y, u, e, t, n)(j, c) == y(j, c)
    ensures Trajectory(M, Forward(M, y, u, e, t, n), u, e, t, n - 1)
  {
    hide EquationsAt, QuietAt;
    if n > 0 {
      var z, z' := Forward(M, y, u, e, t, n - 1), Forward(M, y, u, e, t, n);
      ForwardIsTrajectory(M, y, u, e, t, n - 1);
      NextSatisfies(M, z, u, e, t + n - 1);
      forall k | t <= k < t + n - 1
        ensures EquationsAt(M, z', u, e, k)
      {
        EquationAgrees(M, z, z', u, e, k);
      }
    }
  }

  // ----- from the windows of the controller

  /** Before time t what the window holds, from t on what is planned for s steps. */
  ghost function SignalOf(x: Vec, w: int, plan: Vec, s: int, t: int): Signal {
    (k, c) => if k < t then x(Blk(w, t - 1 - k, c)) else plan(Blk(w, t + s - 1 - k, c))
  }

  ghost const SILENT: Vec := k => 0.0

  lemma SignalHolds(x: Vec, w: int, n: int, plan: Vec, s: int, t: int)
    ensures WindowOf(x, w, n, SignalOf(x, w, plan, s, t), t) && PlanOf(plan, w, s, SignalOf(x, w, plan, s, t), t)
  {
    var z := SignalOf(x, w, plan, s, t);
    forall j, c | 0 <= j < n && 0 <= c < w
      ensures SubVector(x, w, j)(c) == z(t - 1 - j, c)
    {
      assert t - 1 - (t - 1 - j) == j;
    }
    forall b, c | 0 <= b < s && 0 <= c < w
      ensures SubVector(plan, w, b)(c) == z(t + s - 1 - b, c)
    {
      assert t + s - 1 - (t + s - 1 - b) == b;
    }
  }

  ghost function NoiseOf(M: Model, Ep: Vec, t: int): Signal {
    SignalOf(Ep, M.p, SILENT, 0, t)
  }

  /** The outputs of the model over s steps from the stored windows, for the inputs u. */
  ghost function Outcome(M: Model, s: nat, Yp: Vec, Ep: Vec, u: Signal, t: int): Signal {
    Forward(M, SignalOf(Yp, M.p, SILENT, 0, t), u, NoiseOf(M, Ep, t), t, s)
  }

  /** Every past and every inputs have a trajectory. */
  lemma OutcomeIsTrajectory(M: Model, s: nat, Yp: Vec, Ep: Vec, u: Signal, t: int)
    ensures Trajectory(M, Outcome(M, s, Yp, Ep, u, t), u, NoiseOf(M, Ep, t), t, s - 1)
    ensures WindowOf(Yp, M.p, M.na, Outcome(M, s, Yp, Ep, u, t), t) && WindowOf(Ep, M.p, M.nc, NoiseOf(M, Ep, t), t)
  {
    var y, e := SignalOf(Yp, M.p, SILENT, 0, t), NoiseOf(M, Ep, t);
    ForwardIsTrajectory(M, y, u, e, t, s);
    SignalHolds(Yp, M.p, M.na, SILENT, 0, t);
    SignalHolds(Ep, M.p, M.nc, SILENT, 0, t);
    hide SignalOf, Trajectory;
    SamePast(Yp, M.p, M.na, y, Outcome(M, s, Yp, Ep, u, t), t);
  }

  lemma SamePast(x: Vec, w: int, n: int, z: Signal, z': Signal, t: int)
    requires WindowOf(x, w, n, z, t) && forall j, c :: j < t ==> z(j, c) == z'(j, c)
    ensures WindowOf(x, w, n, z', t)
  {
    forall j, c | 0 <= j < n && 0 <= c < w
      ensures SubVector(x, w, j)(c) == z'(t - 1 - j, c)
    {
      assert SubVector(x, w, j)(c) == z(t - 1 - j, c);
    }
  }

  // ----- what the moves are best for, without assuming any trajectory

  ghost function Sum2(a: Vec, b: Vec): Vec {
    k => a(k) + b(k)
  }

  /** The inputs of the first controller: the stored ones, then the plan plus the moves. */
  ghost function InputsOf(M: Model, s: int, Up: Vec, planned: Vec, v: Vec, t: int): Signal {
    SignalOf(Up, M.m, Sum2(planned, v), s, t)
  }

  lemma BestOutcome(M: Model, s: nat, A: Mat, B: Mat, C: Mat, D: Mat, Yp: Vec, Up: Vec, Ep: Vec,
                    planned: Vec, desired: Vec, weight: real, us: Vec, v: Vec, t: int)
    requires M.na >= 1 && M.nb >= 1 && weight > 0.0
    requires PredictsWith(M, s, A, B, C, D)
    requires Solves(M.m * s, Regularized(M.p * s, C, weight), us,
                    Apply(M.p * s, Transpose(C),
                          Tracking(M.p * M.na, M.m * M.nb, M.p * M.nc, M.m * s, A, Yp, B, Up, C, planned, D, Ep,
                                   desired)))
    ensures var y, y' := Outcome(M, s, Yp, Ep, InputsOf(M, s, Up, planned, us, t), t),
                         Outcome(M, s, Yp, Ep, InputsOf(M, s, Up, planned, v, t), t);
      && Achieved(M, s, M.m * s, desired, y, t, weight, us) <= Achieved(M, s, M.m * s, desired, y', t, weight, v)
      && ((exists i :: 0 <= i < M.m * s && v(i) != us(i)) ==>
            Achieved(M, s, M.m * s, desired, y, t, weight, us) < Achieved(M, s, M.m * s, desired, y', t, weight, v))
  {
    var total, total' := Sum2(planned, us), Sum2(planned, v);
    hide PredictsWith, Solves, Regularized, Apply, Tracking, Achieved, WindowOf, PlanOf, Trajectory, Outcome, SignalOf,
      NoiseOf;
    var u, u', e := InputsOf(M, s, Up, planned, us, t), InputsOf(M, s, Up, planned, v, t), NoiseOf(M, Ep, t);
    SignalHolds(Up, M.m, M.nb, total, s, t);
    SignalHolds(Up, M.m, M.nb, total', s, t);
    OutcomeIsTrajectory(M, s, Yp, Ep, u, t);
    OutcomeIsTrajectory(M, s, Yp, Ep, u', t);
    Gpc.OptimalPlan(M, s, A, B, C, D, Yp, Up, Ep, planned, desired, weight, us, v, total, total',
                    Outcome(M, s, Yp, Ep, u, t), u, e, Outcome(M, s, Yp, Ep, u', t), u', e, t);
  }

  /** The inputs of the second controller: the newest one, u(t-1), belongs to the plan. */
  ghost function InputsOf2(M: Model, s: int, X: Setup, planned: Vec, v: Vec, t: int): Signal {
    SignalOf(X.Up2, M.m, Sum2(planned, v), s + 1, t - 1)
  }

  lemma BestOutcome2(M: Model, s: nat, X: Setup, B: Mat, C: Mat, planned: Vec, weight: real, us: Vec, v: Vec, t: int)
    requires M.na >= 1 && M.nb >= 1 && weight > 0.0 && PredictsExtended(M, s, X, B, C)
    requires Solves(M.m * (s + 1), Regularized(M.p * s, X.C2, weight), us,
                    Apply(M.p * s, Transpose(X.C2), ExtendedResidual(M, s, X, planned)))
    ensures var n, y, y' := M.m * (s + 1), Outcome(M, s, X.Yp, X.Ep, InputsOf2(M, s, X, planned, us, t), t),
                            Outcome(M, s, X.Yp, X.Ep, InputsOf2(M, s, X, planned, v, t), t);
      && Achieved(M, s, n, X.desired, y, t, weight, us) <= Achieved(M, s, n, X.desired, y', t, weight, v)
      && ((exists i :: 0 <= i < n && v(i) != us(i)) ==>
            Achieved(M, s, n, X.desired, y, t, weight, us) < Achieved(M, s, n, X.desired, y', t, weight, v))
  {
    var total, total' := Sum2(planned, us), Sum2(planned, v);
    hide PredictsExtended, Solves, Regularized, Apply, ExtendedResidual, Achieved, WindowOf, PlanOf, Trajectory,
      Outcome, SignalOf, NoiseOf;
    var u, u', e := InputsOf2(M, s, X, planned, us, t), InputsOf2(M, s, X, planned, v, t), NoiseOf(M, X.Ep, t);
    SignalHolds(X.Up2, M.m, M.nb - 1, total, s + 1, t - 1);
    SignalHolds(X.Up2, M.m, M.nb - 1, total', s + 1, t - 1);
    OutcomeIsTrajectory(M, s, X.Yp, X.Ep, u, t);
    OutcomeIsTrajectory(M, s, X.Yp, X.Ep, u', t);
    OptimalPlan2(M, s, X, B, C, planned, weight, us, v, total, total',
                 Outcome(M, s, X.Yp, X.Ep, u, t), u, e, Outcome(M, s, X.Yp, X.Ep, u', t), u', e, t);
  }

  // ----- the controller and its state

  /** What GPC_Control leaves in Us beats all other moves, when its model is iterated forward from its windows. */
  lemma BestMoves(g: Gpc.GpcModel, planned: Vec, v: Vec, t: int)
    requires g.MatricesValid() && g.ready && g.lambda > 0.0
    requires Solves(g.m * g.s, Regularized(g.p * g.s, MatOf(g.C), g.lambda), AsVec(g.Us[..]),
                    Apply(g.p * g.s, Transpose(MatOf(g.C)), g.Residual(planned)))
    ensures var us := AsVec(g.Us[..]);
      var y := Outcome(g.model, g.s, AsVec(g.Yp[..]), AsVec(g.Ep[..]),
                       InputsOf(g.model, g.s, AsVec(g.Up[..]), planned, us, t), t);
      var y' := Outcome(g.model, g.s, AsVec(g.Yp[..]), AsVec(g.Ep[..]),
                        InputsOf(g.model, g.s, AsVec(g.Up[..]), planned, v, t), t);
      Achieved(g.model, g.s, g.m * g.s, AsVec(g.Ydes[..]), y, t, g.lambda, us)
      <= Achieved(g.model, g.s, g.m * g.s, AsVec(g.Ydes[..]), y', t, g.lambda, v)
  {
    g.StoredResidual(planned);
    assert g.model.na >= 1 && g.model.nb >= 1 && g.model.p == g.p && g.model.m == g.m;
    hide PredictsWith, Solves, Regularized, Apply, Tracking, Achieved, Outcome, InputsOf, Gpc.GpcModel.MatricesValid;
    BestOutcome(g.model, g.s, MatOf(g.A), MatOf(g.B), MatOf(g.C), MatOf(g.D), AsVec(g.Yp[..]), AsVec(g.Up[..]),
                AsVec(g.Ep[..]), planned, AsVec(g.Ydes[..]), g.lambda, AsVec(g.Us[..]), v, t);
  }

  /** What GPC_Control2 leaves in Us2 does, for a strictly proper model, with the newest input among the moves. */
  lemma BestMoves2(g: Gpc.GpcModel, planned: Vec, v: Vec, t: int)
    requires g.MatricesValid() && g.extended && g.lambda > 0.0
    requires Solves(g.m * (g.s + 1), Regularized(g.p * g.s, MatOf(g.C2), g.lambda), AsVec(g.Us2[..]),
                    Apply(g.p * g.s, Transpose(MatOf(g.C2)), g.Residual2(planned)))
    ensures var us, X, n := AsVec(g.Us2[..]), g.Stored(), g.m * (g.s + 1);
      var y := Outcome(g.model, g.s, AsVec(g.Yp[..]), AsVec(g.Ep[..]), InputsOf2(g.model, g.s, X, planned, us, t), t);
      var y' := Outcome(g.model, g.s, AsVec(g.Yp[..]), AsVec(g.Ep[..]), InputsOf2(g.model, g.s, X, planned, v, t), t);
      Achieved(g.model, g.s, n, AsVec(g.Ydes[..]), y, t, g.lambda, us)
      <= Achieved(g.model, g.s, n, AsVec(g.Ydes[..]), y', t, g.lambda, v)
  {
    g.StoredPredicts(planned);
    assert g.model.na >= 1 && g.model.nb >= 1 && g.model.p == g.p && g.model.m == g.m;
    hide PredictsExtended, Solves, Regularized, Apply, ExtendedResidual, Achieved, Outcome, InputsOf2,
      Gpc.GpcModel.MatricesValid;
    BestOutcome2(g.model, g.s, g.Stored(), MatOf(g.B), MatOf(g.C), planned, g.lambda, AsVec(g.Us2[..]), v, t);
  }
}

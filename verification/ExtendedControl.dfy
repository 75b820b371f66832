// What the moves of GPC_Control2 of utils/GPC.c are best for: the newest input is one of them.
module ExtendedControl {
  import opened LinearAlgebra
  import opened Sums
  import opened BlockMatrices
  import opened PredictionTheory
  import opened PredictionMatrices
  import opened ControlTheory
  import opened ExtendedGram

  /** What the second controller works with: its matrices, its windows and the desired outputs. */
  datatype Setup = Setup(A: Mat, B2: Mat, C2: Mat, D: Mat, Yp: Vec, Up2: Vec, Ep: Vec, desired: Vec)

  /** The matrices are those of the s-step predictor in the extended arrangement. */
  ghost predicate PredictsExtended(M: Model, s: int, X: Setup, B: Mat, C: Mat) {
    PredictsWith(M, s, X.A, B, C, X.D) && ExtendedParts(M.p * s, M.m, M.nb, s, B, C, X.B2, X.C2)
  }

  /** The windows hold the past of the signals; the input window ends before the newest input u(t-1). */
  ghost predicate WindowsOf(M: Model, X: Setup, y: Signal, u: Signal, e: Signal, t: int) {
    WindowOf(X.Yp, M.p, M.na, y, t) && WindowOf(X.Up2, M.m, M.nb - 1, u, t - 1) && WindowOf(X.Ep, M.p, M.nc, e, t)
  }

  /** The residual that the moves are to cancel. */
  ghost function ExtendedResidual(M: Model, s: int, X: Setup, planned: Vec): Vec {
    Tracking(M.p * M.na, M.m * (M.nb - 1), M.p * M.nc, M.m * (s + 1),
             X.A, X.Yp, X.B2, X.Up2, X.C2, planned, X.D, X.Ep, X.desired)
  }

  /** The whole input window: the newest input is the last block of the plan. */
  ghost function Joined(m: int, s: int, total: Vec, Up2: Vec): Vec {
    k => if k < m then total(m * s + k) else Up2(k - m)
  }

  lemma JoinedWindow(m: nat, nb: int, s: nat, total: Vec, Up2: Vec, u: Signal, t: int)
    requires nb >= 1 && WindowOf(Up2, m, nb - 1, u, t - 1) && PlanOf(total, m, s + 1, u, t - 1)
    ensures WindowOf(Joined(m, s, total, Up2), m, nb, u, t) && PlanOf(total, m, s, u, t)
  {
    var x := Joined(m, s, total, Up2);
    forall j, c | 0 <= j < nb && 0 <= c < m
      ensures SubVector(x, m, j)(c) == u(t - 1 - j, c)
    {
      var i := if j > 0 then j - 1 else 0;
      JoinedIndex(m, j, c);
      assert Blk(m, s, c) == m * s + c;
      if j == 0 {
        assert SubVector(total, m, s)(c) == u(t - 1, c);
      } else {
        assert SubVector(Up2, m, i)(c) == u(t - 1 - 1 - i, c);
      }
    }
    forall b, c | 0 <= b < s && 0 <= c < m
      ensures SubVector(total, m, b)(c) == u(t + s - 1 - b, c)
    {
    }
  }

  lemma JoinedIndex(m: nat, j: nat, c: nat)
    requires c < m
    ensures if j == 0 then Blk(m, j, c) == c else Blk(m, j, c) >= m && Blk(m, j, c) - m == Blk(m, j - 1, c)
  {
    if j > 0 {
      assert m * j == m * (j - 1) + m;
      BlkRange(m, j, j - 1, c);
    }
  }

  /** The extended matrices give the outputs of every trajectory from the shorter window and the longer plan. */
  lemma ExtendedPredict(M: Model, s: nat, X: Setup, B: Mat, C: Mat, total: Vec,
                        y: Signal, u: Signal, e: Signal, t: int, b: int, r: int, k: int)
    requires M.na >= 1 && M.nb >= 1 && 0 <= b < s && 0 <= r < M.p && k == Blk(M.p, b, r) && 0 <= k < M.p * s
    requires PredictsExtended(M, s, X, B, C) && WindowsOf(M, X, y, u, e, t)
    requires PlanOf(total, M.m, s + 1, u, t - 1) && Trajectory(M, y, u, e, t, s - 1)
    ensures y(t + s - 1 - b, r) == Apply(M.p * M.na, X.A, X.Yp)(k) + Apply(M.m * (M.nb - 1), X.B2, X.Up2)(k)
                                 + Apply(M.p * M.nc, X.D, X.Ep)(k) + Apply(M.m * (s + 1), X.C2, total)(k)
  {
    assert ExtendedRow(M.m, M.nb, s, B, C, X.B2, X.C2, k);
    hide PredictsWith, WindowOf, PlanOf, Trajectory, Apply, ExtendedRow, ExtendedParts, Blk;
    var Up := Joined(M.m, s, total, X.Up2);
    JoinedWindow(M.m, M.nb, s, total, X.Up2, u, t);
    MatricesPredict(M, s, X.A, B, C, X.D, X.Yp, Up, X.Ep, total, y, u, e, t, s - 1 - b, r);
    SameContribution(M.m, M.nb, s, B, C, X.B2, X.C2, Up, total, X.Up2, total, k);
  }

  /** For every trajectory that applies the plan plus the moves v, newest input included, the residual that is left is
      the tracking error over the horizon. */
  lemma ResidualIsTrackingError2(M: Model, s: nat, X: Setup, B: Mat, C: Mat, planned: Vec, v: Vec, total: Vec,
                                 y: Signal, u: Signal, e: Signal, t: int, k: int)
    requires M.na >= 1 && M.nb >= 1 && 0 <= k < M.p * s
    requires PredictsExtended(M, s, X, B, C) && WindowsOf(M, X, y, u, e, t)
    requires forall i :: 0 <= i < M.m * (s + 1) ==> total(i) == planned(i) + v(i)
    requires PlanOf(total, M.m, s + 1, u, t - 1) && Trajectory(M, y, u, e, t, s - 1)
    ensures Minus(ExtendedResidual(M, s, X, planned), Apply(M.m * (s + 1), X.C2, v))(k)
            == TrackingError(M.p, s, X.desired, y, t)(k)
  {
    hide PredictsExtended, WindowsOf, PlanOf, Trajectory, Apply;
    Decompose(M.p, s, k);
    ExtendedPredict(M, s, X, B, C, total, y, u, e, t, k / M.p, k % M.p, k);
    ApplyLinear(M.m * (s + 1), X.C2, k, 1.0, planned, 1.0, v, total);
  }

  lemma ObjectiveIsTracking2(M: Model, s: nat, X: Setup, B: Mat, C: Mat, planned: Vec, v: Vec, total: Vec, weight: real,
                             y: Signal, u: Signal, e: Signal, t: int)
    requires M.na >= 1 && M.nb >= 1
    requires PredictsExtended(M, s, X, B, C) && WindowsOf(M, X, y, u, e, t)
    requires forall i :: 0 <= i < M.m * (s + 1) ==> total(i) == planned(i) + v(i)
    requires PlanOf(total, M.m, s + 1, u, t - 1) && Trajectory(M, y, u, e, t, s - 1)
    ensures Objective(M.p * s, M.m * (s + 1), X.C2, weight, ExtendedResidual(M, s, X, planned), v)
         == Achieved(M, s, M.m * (s + 1), X.desired, y, t, weight, v)
  {
    var f := Minus(ExtendedResidual(M, s, X, planned), Apply(M.m * (s + 1), X.C2, v));
    var g := TrackingError(M.p, s, X.desired, y, t);
    hide PredictsExtended, WindowsOf, PlanOf, Trajectory, ExtendedResidual, Minus, TrackingError, Apply, Dot;
    forall k | 0 <= k < M.p * s
      ensures f(k) == g(k)
    {
      ResidualIsTrackingError2(M, s, X, B, C, planned, v, total, y, u, e, t, k);
    }
    DotEq(M.p * s, f, f, g, g);
  }

  /** Moves that solve the system of the second controller beat any other ones v, penalty included, on the
      trajectories of the model with the stored past, where the newest input u(t-1) is free as well. */
  lemma OptimalPlan2(M: Model, s: nat, X: Setup, B: Mat, C: Mat, planned: Vec, weight: real,
                     us: Vec, v: Vec, total: Vec, total': Vec,
                     y: Signal, u: Signal, e: Signal, y': Signal, u': Signal, e': Signal, t: int)
    requires M.na >= 1 && M.nb >= 1 && weight > 0.0
    requires PredictsExtended(M, s, X, B, C) && WindowsOf(M, X, y, u, e, t) && WindowsOf(M, X, y', u', e', t)
    requires forall i :: 0 <= i < M.m * (s + 1) ==> total(i) == planned(i) + us(i)
    requires forall i :: 0 <= i < M.m * (s + 1) ==> total'(i) == planned(i) + v(i)
    requires PlanOf(total, M.m, s + 1, u, t - 1) && PlanOf(total', M.m, s + 1, u', t - 1)
    requires Trajectory(M, y, u, e, t, s - 1) && Trajectory(M, y', u', e', t, s - 1)
    requires Solves(M.m * (s + 1), Regularized(M.p * s, X.C2, weight), us,
                    Apply(M.p * s, Transpose(X.C2), ExtendedResidual(M, s, X, planned)))
    ensures Achieved(M, s, M.m * (s + 1), X.desired, y, t, weight, us)
         <= Achieved(M, s, M.m * (s + 1), X.desired, y', t, weight, v)
    ensures (exists i :: 0 <= i < M.m * (s + 1) && v(i) != us(i)) ==>
      Achieved(M, s, M.m * (s + 1), X.desired, y, t, weight, us)
      < Achieved(M, s, M.m * (s + 1), X.desired, y', t, weight, v)
  {
    ObjectiveIsTracking2(M, s, X, B, C, planned, us, total, weight, y, u, e, t);
    ObjectiveIsTracking2(M, s, X, B, C, planned, v, total', weight, y', u', e', t);
    hide Objective, Achieved, ExtendedResidual, Solves, Regularized, Trajectory, WindowsOf, PlanOf, PredictsExtended;
    SolutionIsOptimal(M.p * s, M.m * (s + 1), X.C2, weight, ExtendedResidual(M, s, X, planned), us, v);
  }
}

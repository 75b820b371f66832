// The control law of utils/GPC.c as a least-squares problem: its system is always definite, and its
// solution is the only minimiser of the predicted tracking error plus the penalty on the inputs.
module ControlTheory {
  import opened LinearAlgebra
  import opened Sums
  import opened BlockMatrices
  import opened PredictionTheory
  import opened PredictionMatrices

  /** C'*C + weight*I, for C with q rows. */
  ghost function Regularized(q: int, C: Mat, weight: real): Mat {
    (i, j) => Product(q, Transpose(C), C)(i, j) + if i == j then weight else 0.0
  }

  /** (C'*C + weight*I)*x == C'*(C*x) + weight*x. */
  lemma ApplyRegularized(q: int, n: int, C: Mat, weight: real, x: Vec, i: int)
    requires 0 <= i < n
    ensures Apply(n, Regularized(q, C, weight), x)(i)
         == Apply(q, Transpose(C), Apply(n, C, x))(i) + weight * x(i)
  {
    ApplyScaledIdentity(n, weight, x, i);
    ApplyProduct(q, n, Transpose(C), C, x, i);
    RegularizedEntry(q, C, weight);
    hide Sum, Apply, Product, Regularized, ScaledIdentity;
    ApplySum(n, i, 1.0, Product(q, Transpose(C), C), 1.0, ScaledIdentity(weight), Regularized(q, C, weight), x);
  }

  lemma RegularizedEntry(q: int, C: Mat, weight: real)
    ensures forall i, j :: Regularized(q, C, weight)(i, j)
                             == 1.0 * Product(q, Transpose(C), C)(i, j) + 1.0 * ScaledIdentity(weight)(i, j)
  {
  }

  lemma GramSymmetric(q: int, C: Mat, i: int, j: int)
    ensures Product(q, Transpose(C), C)(i, j) == Product(q, Transpose(C), C)(j, i)
  {
    var f, g := ProdTerms(Transpose(C), C, i, j), ProdTerms(Transpose(C), C, j, i);
    forall k | 0 <= k < q
      ensures f(k) == g(k)
    {
      Commute(C(k, i), C(k, j));
    }
    SumEq(0, q, f, g);
  }

  lemma Commute(a: real, b: real)
    ensures a * b == b * a
  {
  }

  lemma RegularizedSymmetric(q: int, n: int, C: Mat, weight: real)
    ensures Symmetric(n, Regularized(q, C, weight))
  {
    hide Product;
    forall i, j | 0 <= i < n && 0 <= j < n
      ensures Regularized(q, C, weight)(i, j) == Regularized(q, C, weight)(j, i)
    {
      GramSymmetric(q, C, i, j);
    }
  }

  /** x'(C'*C + weight*I)x is |C*x|^2 + weight*|x|^2. */
  lemma QuadRegularized(q: int, n: int, C: Mat, weight: real, x: Vec)
    ensures Quad(n, Regularized(q, C, weight), x)
         == Dot(q, Apply(n, C, x), Apply(n, C, x)) + weight * Dot(n, x, x)
  {
    var y := Apply(n, C, x);
    forall i | 0 <= i < n
      ensures Apply(n, Regularized(q, C, weight), x)(i) == 1.0 * Apply(q, Transpose(C), y)(i) + weight * x(i)
    {
      ApplyRegularized(q, n, C, weight, x, i);
    }
    DotLinear(n, x, 1.0, Apply(q, Transpose(C), y), weight, x, Apply(n, Regularized(q, C, weight), x));
    Adjoint(q, n, C, y, x);
    DotCommutes(n, x, Apply(q, Transpose(C), y));
  }

  /** The system matrix of the controller is bounded below by the penalty. */
  lemma RegularizedBounded(q: int, n: int, C: Mat, weight: real, bound: real)
    requires weight >= bound
    ensures BoundedBelow(n, Regularized(q, C, weight), bound)
  {
    forall x: Vec
      ensures Quad(n, Regularized(q, C, weight), x) >= bound * Dot(n, x, x)
    {
      QuadRegularized(q, n, C, weight, x);
      DotSelf(q, Apply(n, C, x));
      DotSelf(n, x);
      Monotone(weight, bound, Dot(n, x, x));
    }
  }

  lemma Monotone(a: real, b: real, x: real)
    requires a >= b && x >= 0.0
    ensures a * x >= b * x
  {
  }

  // ----- optimality

  /** |w - C*v|^2 + weight*|v|^2. */
  ghost function Objective(q: int, n: int, C: Mat, weight: real, w: Vec, v: Vec): real {
    Dot(q, Minus(w, Apply(n, C, v)), Minus(w, Apply(n, C, v))) + weight * Dot(n, v, v)
  }

  lemma SquareOfDifference(n: int, a: Vec, b: Vec, c: Vec)
    requires forall i :: 0 <= i < n ==> c(i) == a(i) - b(i)
    ensures Dot(n, c, c) == Dot(n, a, a) - 2.0 * Dot(n, b, a) + Dot(n, b, b)
  {
    DotLinear(n, c, 1.0, a, -1.0, b, c);
    DotCommutes(n, c, a);
    DotCommutes(n, c, b);
    DotLinear(n, a, 1.0, a, -1.0, b, c);
    DotLinear(n, b, 1.0, a, -1.0, b, c);
    DotCommutes(n, a, b);
  }

  /** Away from the solution the objective grows by |C*d|^2 + weight*|d|^2. */
  lemma ObjectiveGap(q: int, n: int, C: Mat, weight: real, w: Vec, u: Vec, v: Vec)
    requires Solves(n, Regularized(q, C, weight), u, Apply(q, Transpose(C), w))
    ensures Objective(q, n, C, weight, w, v) == Objective(q, n, C, weight, w, u)
      + Quad(n, Regularized(q, C, weight), Minus(v, u))
  {
    hide Apply, Sum, Regularized, Solves, Dot, Quad;
    var d, e := Minus(v, u), Minus(w, Apply(n, C, u));
    forall i | 0 <= i < q
      ensures Minus(w, Apply(n, C, v))(i) == e(i) - Apply(n, C, d)(i)
    {
      ApplyLinear(n, C, i, 1.0, v, -1.0, u, d);
    }
    CrossTerm(q, n, C, weight, w, u, d);
    DotLinear(n, d, 1.0, v, -1.0, u, d);
    SquareOfDifference(q, e, Apply(n, C, d), Minus(w, Apply(n, C, v)));
    SquareOfDifference(n, v, u, d);
    QuadRegularized(q, n, C, weight, d);
    DotCommutes(n, u, v);
    DotCommutes(n, u, d);
    DotLinear(n, u, 1.0, v, -1.0, u, d);
    GapArithmetic(weight, Dot(n, v, v), Dot(n, u, u), Dot(n, d, d), Dot(n, d, u), Dot(n, u, v),
      Dot(q, e, e), Dot(q, Apply(n, C, d), e), Dot(q, Apply(n, C, d), Apply(n, C, d)),
      Dot(q, Minus(w, Apply(n, C, v)), Minus(w, Apply(n, C, v))));
  }

  lemma GapArithmetic(weight: real, vv: real, uu: real, dd: real, du: real, uv: real,
                      ee: real, cross: real, cdcd: real, after: real)
    requires after == ee - 2.0 * cross + cdcd
    requires cross == weight * du
    requires dd == vv - 2.0 * uv + uu && du == uv - uu
    ensures after + weight * vv == ee + weight * uu + (cdcd + weight * dd)
  {
  }

  /** At the solution, the residual is balanced by the penalty in every direction. */
  lemma CrossTerm(q: int, n: int, C: Mat, weight: real, w: Vec, u: Vec, d: Vec)
    requires Solves(n, Regularized(q, C, weight), u, Apply(q, Transpose(C), w))
    ensures Dot(q, Apply(n, C, d), Minus(w, Apply(n, C, u))) == weight * Dot(n, d, u)
  {
    var e, y := Minus(w, Apply(n, C, u)), Apply(n, C, u);
    forall i | 0 <= i < n
      ensures Apply(q, Transpose(C), e)(i) == weight * u(i) + 0.0 * u(i)
    {
      ApplyLinear(q, Transpose(C), i, 1.0, w, -1.0, y, e);
      ApplyRegularized(q, n, C, weight, u, i);
    }
    Adjoint(q, n, C, e, d);
    DotCommutes(q, e, Apply(n, C, d));
    DotCommutes(n, Apply(q, Transpose(C), e), d);
    DotLinear(n, d, weight, u, 0.0, u, Apply(q, Transpose(C), e));
  }

  /** The solution of the controller's system is the only minimiser of its objective. */
  lemma SolutionIsOptimal(q: int, n: int, C: Mat, weight: real, w: Vec, u: Vec, v: Vec)
    requires weight > 0.0
    requires Solves(n, Regularized(q, C, weight), u, Apply(q, Transpose(C), w))
    ensures Objective(q, n, C, weight, w, u) <= Objective(q, n, C, weight, w, v)
    ensures (exists i :: 0 <= i < n && v(i) != u(i)) ==>
              Objective(q, n, C, weight, w, u) < Objective(q, n, C, weight, w, v)
  {
    var d := Minus(v, u);
    ObjectiveGap(q, n, C, weight, w, u, v);
    RegularizedBounded(q, n, C, weight, weight);
    assert Quad(n, Regularized(q, C, weight), d) >= weight * Dot(n, d, d);
    DotSelf(n, d);
    hide Dot, Quad, Objective, Regularized, Solves, BoundedBelow;
    if exists i :: 0 <= i < n && v(i) != u(i) {
      var i :| 0 <= i < n && v(i) != u(i);
      assert d(i) != 0.0;
      PositiveProduct(weight, Dot(n, d, d), weight * Dot(n, d, d));
    } else {
      NonNegativeProduct(weight, Dot(n, d, d));
    }
  }

  lemma NonNegativeProduct(a: real, b: real)
    requires a >= 0.0 && b >= 0.0
    ensures a * b >= 0.0
  {
  }

  // ----- what the objective means

  /** The free response of the predicted outputs: what they would be with the inputs planned so far. */
  ghost function Tracking(na: int, nb: int, nc: int, nu: int, A: Mat, Yp: Vec, B: Mat, Up: Vec, C: Mat, planned: Vec,
                          D: Mat, Ep: Vec, desired: Vec): Vec {
    i => desired(i) - Apply(na, A, Yp)(i) - Apply(nb, B, Up)(i) - Apply(nu, C, planned)(i) - Apply(nc, D, Ep)(i)
  }

  /** The squared distance between the desired outputs and a trajectory over the horizon, in storage order. */
  ghost function TrackingError(p: int, s: int, desired: Vec, y: Signal, t: int): Vec {
    k => desired(k) - StackedOutput(p, s, y, t)(k)
  }

  /** Component r of block row b is output r at time t+s-1-b. */
  ghost function StackedOutput(p: int, s: int, y: Signal, t: int): Vec {
    k => if p > 0 then y(t + s - 1 - k / p, k % p) else 0.0
  }

  lemma Decompose(w: int, n: int, k: int)
    requires 0 <= k < w * n && 0 <= w
    ensures w > 0
    ensures 0 <= k / w < n && 0 <= k % w < w && k == Blk(w, k / w, k % w)
  {
  }

  /** For every trajectory that applies the planned inputs plus a correction v, the residual that the
      controller minimises is the tracking error over the horizon. */
  lemma ResidualIsTrackingError(M: Model, s: nat, A: Mat, B: Mat, C: Mat, D: Mat, Yp: Vec, Up: Vec, Ep: Vec,
                                planned: Vec, v: Vec, total: Vec, desired: Vec,
                                y: Signal, u: Signal, e: Signal, t: int, k: int)
    requires M.na >= 1 && M.nb >= 1
    requires 0 <= k < M.p * s
    requires PredictsWith(M, s, A, B, C, D)
    requires WindowOf(Yp, M.p, M.na, y, t) && WindowOf(Up, M.m, M.nb, u, t) && WindowOf(Ep, M.p, M.nc, e, t)
    requires forall i :: 0 <= i < M.m * s ==> total(i) == planned(i) + v(i)
    requires PlanOf(total, M.m, s, u, t)
    requires Trajectory(M, y, u, e, t, s - 1)
    ensures Minus(Tracking(M.p * M.na, M.m * M.nb, M.p * M.nc, M.m * s, A, Yp, B, Up, C, planned, D, Ep, desired),
                 Apply(M.m * s, C, v))(k)
         == TrackingError(M.p, s, desired, y, t)(k)
  {
    Decompose(M.p, s, k);
    hide PredictsWith, WindowOf, PlanOf, Trajectory, Apply, Sum;
    MatricesPredict(M, s, A, B, C, D, Yp, Up, Ep, total, y, u, e, t, s - 1 - k / M.p, k % M.p);
    ApplyLinear(M.m * s, C, k, 1.0, planned, 1.0, v, total);
  }

  /** Squared tracking error over the horizon plus weight times the squares of the n moves. */
  ghost function Achieved(M: Model, s: int, n: int, desired: Vec, y: Signal, t: int, weight: real, v: Vec): real {
    Dot(M.p * s, TrackingError(M.p, s, desired, y, t), TrackingError(M.p, s, desired, y, t)) + weight * Dot(n, v, v)
  }
}

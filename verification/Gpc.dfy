// The generalized predictive controller of utils/GPC.c: its windows, its prediction matrices, and the
// theorem that its control moves are the best possible ones for the identified model.
module Gpc {
  import opened LinearAlgebra
  import opened Sums
  import opened MatrixLibrary
  import opened Windows
  import opened BlockMatrices
  import opened PredictionTheory
  import opened PredictionMatrices
  import opened Predictor
  import opened GramTheory
  import opened ControlTheory
  import opened ExtendedGram
  import opened ExtendedControl
  import opened Udu
  import opened Controller

  class GpcModel {
    const na: nat
    const nb: nat
    const nc: nat
    const m: nat
    const p: nat
    const s: nat
    var lambda: real
    const A: array2<real>
    const B: array2<real>
    const C: array2<real>
    const D: array2<real>
    const B2: array2<real>
    const C2: array2<real>
    const Yp: array<real>
    const Up: array<real>
    const Ep: array<real>
    const Up2: array<real>
    const Us: array<real>
    const Us2: array<real>
    const Ydes: array<real>

    // the model behind the current matrices, once they have been computed
    ghost var model: Model
    ghost var ready: bool
    ghost var extended: bool
    ghost var outputs: seq<seq<real>>
    ghost var inputs: seq<seq<real>>
    ghost var inputs2: seq<seq<real>>
    ghost var errors: seq<seq<real>>

    ghost predicate Shapes() {
      && na >= 1 && nb >= 1 && s >= 1
      && A.Length0 == B.Length0 == C.Length0 == D.Length0 == B2.Length0 == C2.Length0 == Ydes.Length == p * s
      && A.Length1 == Yp.Length == p * na && B.Length1 == Up.Length == m * nb && D.Length1 == Ep.Length == p * nc
      && C.Length1 == Us.Length == m * s && C2.Length1 == Us2.Length == m * (s + 1)
      && B2.Length1 == Up2.Length == m * (nb - 1)
      && A != B && A != C && A != D && A != B2 && A != C2 && B != C && B != D && B != B2 && B != C2
      && C != D && C != B2 && C != C2 && D != B2 && D != C2 && B2 != C2
      && Us != Yp && Us != Up && Us != Ep && Us != Ydes && Us != Us2 && Us != Up2
      && Us2 != Yp && Us2 != Up && Us2 != Ep && Us2 != Ydes && Us2 != Up2
      && Yp != Up && Yp != Ep && Up != Ep && Up2 != Yp && Up2 != Ep && Up2 != Up
    }

    ghost predicate MatricesValid()
      reads this, A, B, C, D, B2, C2
    {
      && Shapes()
      && ZeroBelow(s, p, m, MatOf(C))
      && (ready ==> model.na == na && model.nb == nb && model.nc == nc && model.p == p && model.m == m)
      && (ready ==> PredictsWith(model, s, MatOf(A), MatOf(B), MatOf(C), MatOf(D)))
      && (extended ==> ready && HoldsExtended(model, s, MatOf(C2)))
      && (extended ==> ExtendedParts(p * s, m, nb, s, MatOf(B), MatOf(C), MatOf(B2), MatOf(C2)))
    }

    ghost predicate WindowsValid()
      reads this, Yp, Up, Ep, Up2
    {
      && Shapes()
      && Holds(Yp[..], 0, p, na, outputs)
      && Holds(Up[..], 0, m, nb, inputs)
      && Holds(Ep[..], 0, p, nc, errors)
      && Holds(Up2[..], 0, m, nb - 1, inputs2)
    }

    constructor (na: nat, nb: nat, nc: nat, m: nat, p: nat, s: nat, weight: real)
      requires na >= 1 && nb >= 1 && s >= 1
      ensures MatricesValid() && WindowsValid() && !ready && !extended
      ensures outputs == inputs == errors == inputs2 == []
      ensures this.lambda == weight && this.p == p && this.m == m && this.s == s
      ensures this.na == na && this.nb == nb && this.nc == nc
    {
      this.na, this.nb, this.nc, this.m, this.p, this.s, this.lambda := na, nb, nc, m, p, s, weight;
      A := new real[p * s, p * na];
      B := new real[p * s, m * nb];
      C := new real[p * s, m * s];
      D := new real[p * s, p * nc];
      B2 := new real[p * s, m * (nb - 1)];
      C2 := new real[p * s, m * (s + 1)];
      Yp, Up := new real[p * na], new real[m * nb];
      Ep, Up2 := new real[p * nc], new real[m * (nb - 1)];
      Us, Us2 := new real[m * s], new real[m * (s + 1)];
      Ydes := new real[p * s];
      ready, extended := false, false;
      outputs, inputs, errors, inputs2 := [], [], [], [];
      new;
      Clear();
    }

    /** matrix_init and vector_init zero what they allocate. */
    method Clear()
      requires Shapes() && !ready && !extended && outputs == inputs == errors == inputs2 == []
      modifies A, B, C, D, B2, C2, Yp, Up, Ep, Up2, Us, Us2, Ydes
      ensures MatricesValid() && WindowsValid()
    {
      hide MatricesValid, WindowsValid;
      MatrixEye(A, 0.0);
      MatrixEye(B, 0.0);
      MatrixEye(D, 0.0);
      MatrixEye(B2, 0.0);
      MatrixEye(C2, 0.0);
      MatrixEye(C, 0.0);
      VectorZero(Us);
      VectorZero(Us2);
      VectorZero(Ydes);
      VectorZero(Yp);
      VectorZero(Up);
      VectorZero(Ep);
      VectorZero(Up2);
      StartsValid();
    }

    /** Zero storage is a valid controller without matrices and with empty histories. */
    lemma StartsValid()
      requires Shapes() && !ready && !extended && outputs == inputs == errors == inputs2 == []
      requires forall i, j :: 0 <= i < C.Length0 && 0 <= j < C.Length1 ==> C[i, j] == 0.0
      requires forall q :: 0 <= q < Yp.Length ==> Yp[q] == 0.0
      requires forall q :: 0 <= q < Up.Length ==> Up[q] == 0.0
      requires forall q :: 0 <= q < Ep.Length ==> Ep[q] == 0.0
      requires forall q :: 0 <= q < Up2.Length ==> Up2[q] == 0.0
      ensures MatricesValid() && WindowsValid()
    {
      ZeroStorage(s, p, m, MatOf(C));
      hide ZeroBelow;
      EmptyWindow(Yp[..], 0, p, na);
      EmptyWindow(Up[..], 0, m, nb);
      EmptyWindow(Ep[..], 0, p, nc);
      EmptyWindow(Up2[..], 0, m, nb - 1);
    }

    /** GPC_PredictionFunction: the matrices are recomputed for the parameters theta. */
    method PredictionFunction(theta: array2<real>, simplyProper: nat, flag: nat)
      requires MatricesValid()
      requires theta.Length0 == p && p * na + simplyProper * m + m * nb + p * nc <= theta.Length1
      requires theta != A && theta != B && theta != C && theta != D && theta != B2 && theta != C2
      modifies this, A, B, C, D, B2, C2
      ensures MatricesValid() && ready
      ensures model == Model(na, nb, nc, p, m, simplyProper, MatOf(theta))
      ensures flag == 1 ==> extended
      ensures lambda == old(lambda)
      ensures outputs == old(outputs) && inputs == old(inputs) && errors == old(errors) && inputs2 == old(inputs2)
    {
      ghost var M := Model(na, nb, nc, p, m, simplyProper, MatOf(theta));
      hide ZeroBelow, PredictsWith, HoldsExtended;
      Predict(M, theta, A, B, C, D, na, nb, nc, p, m, s, simplyProper);
      model, ready, extended := M, true, false;
      if flag == 1 {
        Extend();
      }
    }

    /** The last part of GPC_PredictionFunction: B2 and C2. */
    method Extend()
      requires MatricesValid() && ready
      modifies B2, C2, `extended
      ensures MatricesValid() && extended
    {
      hide ZeroBelow, HoldsExtended;
      assert PredictsWith(model, s, MatOf(A), MatOf(B), MatOf(C), MatOf(D));
      StoreExtended(B, C, B2, C2, p * s, m, nb, s);
      ExtendedFromParts(model, s, MatOf(B), MatOf(C), MatOf(C2));
      extended := true;
    }

    /** GPC_VectorUpdate: the newest output, input and prediction error enter the windows. */
    method VectorUpdate(y: array<real>, u: array<real>, e: array<real>)
      requires WindowsValid() && y.Length == p && u.Length == m && (nc > 0 ==> e.Length == p)
      requires y != Yp && y != Up && y != Ep && u != Yp && u != Up && u != Ep && e != Yp && e != Up && e != Ep
      modifies Yp, Up, Ep, `outputs, `inputs, `errors
      ensures WindowsValid()
      ensures outputs == old(outputs) + [y[..]] && inputs == old(inputs) + [u[..]]
      ensures errors == if nc > 0 then old(errors) + [e[..]] else old(errors)
    {
      hide Holds;
      PushSample(Yp, p, na, y, outputs);
      PushSample(Up, m, nb, u, inputs);
      if nc > 0 {
        PushSample(Ep, p, nc, e, errors);
        errors := errors + [e[..]];
      }
      outputs, inputs := outputs + [y[..]], inputs + [u[..]];
    }

    /** GPC_VectorUpdate2: the same with the shorter input window of the second controller. */
    method VectorUpdate2(y: array<real>, u: array<real>, e: array<real>)
      requires WindowsValid() && nb >= 2 && y.Length == p && u.Length == m && (nc > 0 ==> e.Length == p)
      requires y != Yp && y != Up2 && y != Ep && u != Yp && u != Up2 && u != Ep && e != Yp && e != Up2 && e != Ep
      modifies Yp, Up2, Ep, `outputs, `inputs2, `errors
      ensures WindowsValid()
      ensures outputs == old(outputs) + [y[..]] && inputs2 == old(inputs2) + [u[..]]
      ensures errors == if nc > 0 then old(errors) + [e[..]] else old(errors)
    {
      hide Holds;
      PushSample(Yp, p, na, y, outputs);
      PushSample(Up2, m, nb - 1, u, inputs2);
      if nc > 0 {
        PushSample(Ep, p, nc, e, errors);
        errors := errors + [e[..]];
      }
      outputs, inputs2 := outputs + [y[..]], inputs2 + [u[..]];
    }

    /** The residual that GPC_Control works with. */
    ghost function Residual(planned: Vec): Vec
      reads A, B, C, D, Yp, Up, Ep, Ydes
    {
      Tracking(Yp.Length, Up.Length, Ep.Length, Us.Length, MatOf(A), AsVec(Yp[..]), MatOf(B), AsVec(Up[..]),
               MatOf(C), planned, MatOf(D), AsVec(Ep[..]), AsVec(Ydes[..]))
    }

    /** The residual that GPC_Control2 works with. */
    ghost function Residual2(planned: Vec): Vec
      reads A, B2, C2, D, Yp, Up2, Ep, Ydes
    {
      Tracking(Yp.Length, Up2.Length, Ep.Length, Us2.Length, MatOf(A), AsVec(Yp[..]), MatOf(B2), AsVec(Up2[..]),
               MatOf(C2), planned, MatOf(D), AsVec(Ep[..]), AsVec(Ydes[..]))
    }

    /** GPC_Control: Us solves (C'*C + lambda*I)*Us = C'*residual, and a penalty of at least the pivot
        threshold guarantees that the factorization goes through. */
    method Control(planned: array<real>) returns (ok: bool)
      requires MatricesValid() && ready && planned.Length == m * s && planned != Us
      modifies Us
      ensures ok ==> Solves(m * s, Regularized(p * s, MatOf(C), lambda), AsVec(Us[..]),
                            Apply(p * s, Transpose(MatOf(C)), Residual(AsVec(planned[..]))))
      ensures lambda >= THRESHOLD ==> ok
    {
      ghost var T := MarkovBlocks(model);
      assert PredictsWith(model, s, MatOf(A), MatOf(B), MatOf(C), MatOf(D));
      hide PredictsWith, Toeplitz, Causal, IsBlock, Markov, Regularized, Tracking, Solves, ZeroBelow, HoldsExtended,
        MatOf;
      Responses();
      FirstRowFits(p, s);
      EmptyWhenUnused(p, nc);
      ok := Controller.SolveControl(A, Yp, B, Up, C, planned, D, Ep, Ydes, lambda, p, m, s, 0, nc, Us, T, MatOf(C));
    }

    lemma Responses()
      requires MatricesValid() && ready
      ensures Toeplitz(p, m, s, 0, MarkovBlocks(model), MatOf(C)) && Causal(p, m, MarkovBlocks(model))
      ensures FirstRowHolds(p, m, s, 0, MarkovBlocks(model), MatOf(C))
    {
      MarkovIsToeplitz(model, s, MatOf(C));
    }

    /** The residual of the first controller is the one whose moves are optimal. */
    lemma StoredResidual(planned: Vec)
      requires MatricesValid() && ready
      ensures PredictsWith(model, s, MatOf(A), MatOf(B), MatOf(C), MatOf(D))
      ensures Residual(planned)
           == Tracking(model.p * model.na, model.m * model.nb, model.p * model.nc, model.m * s,
                       MatOf(A), AsVec(Yp[..]), MatOf(B), AsVec(Up[..]), MatOf(C), planned, MatOf(D), AsVec(Ep[..]),
                       AsVec(Ydes[..]))
    {
      hide ZeroBelow, PredictsWith, HoldsExtended, ExtendedParts, Apply;
    }

    /** What the second controller works with. */
    ghost function Stored(): Setup
      reads A, B2, C2, D, Yp, Up2, Ep, Ydes
    {
      Setup(MatOf(A), MatOf(B2), MatOf(C2), MatOf(D), AsVec(Yp[..]), AsVec(Up2[..]), AsVec(Ep[..]), AsVec(Ydes[..]))
    }

    /** Its matrices predict the model, so that the moves of GPC_Control2 are those of OptimalPlan2. */
    lemma StoredPredicts(planned: Vec)
      requires MatricesValid() && extended
      ensures PredictsExtended(model, s, Stored(), MatOf(B), MatOf(C))
      ensures ExtendedResidual(model, s, Stored(), planned) == Residual2(planned)
    {
      hide ZeroBelow, PredictsWith, HoldsExtended, ExtendedParts, Apply;
    }

    /** GPC_Control2: the same for the extended matrices, except that the system matrix is the product of the matrix
        that continues the first block row of C2 without its direct term. For a strictly proper model that is C2. */
    method Control2(planned: array<real>) returns (ok: bool)
      requires MatricesValid() && extended && planned.Length == m * (s + 1) && planned != Us2
      modifies Us2
      ensures ok ==> Solves(m * (s + 1), Regularized(p * s, WithoutDirect(model, s), lambda), AsVec(Us2[..]),
                            Apply(p * s, Transpose(MatOf(C2)), Residual2(AsVec(planned[..]))))
      ensures ok && StrictlyProper(model) ==>
                Solves(m * (s + 1), Regularized(p * s, MatOf(C2), lambda), AsVec(Us2[..]),
                       Apply(p * s, Transpose(MatOf(C2)), Residual2(AsVec(planned[..]))))
      ensures lambda >= THRESHOLD ==> ok
    {
      hide Toeplitz, Causal, IsBlock, StrictlyProper, Regularized, Tracking, Solves, Markov, Block, ZeroBelow,
        PredictsWith, HoldsExtended, MatOf, WithoutDirect;
      ghost var T, K := CausalTail(model, s), WithoutDirect(model, s);
      WithoutDirectToeplitz(model, s);
      TailIsFirstRow(model, s, MatOf(C2));
      FirstRowFits(p, s);
      EmptyWhenUnused(p, nc);
      ok := Controller.SolveControl(A, Yp, B2, Up2, C2, planned, D, Ep, Ydes, lambda, p, m, s, 1, nc, Us2, T, K);
      if ok && StrictlyProper(model) {
        WithoutDirectIsAll(model, s, MatOf(C2));
        SameSystem(p * s, m * (s + 1), K, MatOf(C2), lambda, AsVec(Us2[..]),
                   Apply(p * s, Transpose(MatOf(C2)), Residual2(AsVec(planned[..]))));
      }
    }
  }

  /** The system only depends on the entries of the matrix. */
  lemma SameSystem(q: nat, n: int, K: Mat, C: Mat, weight: real, x: Vec, b: Vec)
    requires forall i, j :: 0 <= i < q && 0 <= j < n ==> K(i, j) == C(i, j)
    requires Solves(n, Regularized(q, K, weight), x, b)
    ensures Solves(n, Regularized(q, C, weight), x, b)
  {
    forall i, j | 0 <= i < n && 0 <= j < n
      ensures Regularized(q, K, weight)(i, j) == Regularized(q, C, weight)(i, j)
    {
      var f, g := ProdTerms(Transpose(K), K, i, j), ProdTerms(Transpose(C), C, i, j);
      assert forall k :: 0 <= k < q ==> f(k) == g(k);
      SumEq(0, q, f, g);
      assert Product(q, Transpose(K), K)(i, j) == Product(q, Transpose(C), C)(i, j);
    }
    hide Regularized;
    SolutionTransfers(n, Regularized(q, K, weight), Regularized(q, C, weight), x, x, b);
  }

  /** B2 is B without its first block column, and C2 is C followed by that block column. */
  method StoreExtended(B: array2<real>, C: array2<real>, B2: array2<real>, C2: array2<real>,
                       rows: nat, m: nat, nb: nat, s: nat)
    requires B.Length0 == C.Length0 == B2.Length0 == C2.Length0 == rows && nb >= 1
    requires B.Length1 == m * nb && C.Length1 == m * s && B2.Length1 == m * (nb - 1) && C2.Length1 == m * (s + 1)
    requires B2 != B && B2 != C && B2 != C2 && C2 != B && C2 != C
    modifies B2, C2
    ensures forall i, k :: 0 <= i < rows && 0 <= k < m * s ==> MatOf(C2)(i, k) == MatOf(C)(i, k)
    ensures forall i, c :: 0 <= i < rows && 0 <= c < m ==> MatOf(C2)(i, m * s + c) == MatOf(B)(i, c)
    ensures forall i, k :: 0 <= i < rows && 0 <= k < m * (nb - 1) ==> B2[i, k] == MatOf(B)(i, m + k)
  {
    var plan, all, rest := m * s, m * nb, m * (nb - 1);
    assert all == m + rest && m * (s + 1) == plan + m;
    SubMatrixExtract(B, B2, 0, m);
    SubMatrixInsert(C2, C, 0, 0);
    var tmp := new real[rows, m];
    SubMatrixExtract(B, tmp, 0, 0);
    SubMatrixInsert(C2, tmp, 0, s * m);
    assert s * m == plan;
  }

  ghost function MarkovBlocks(M: Model): Blocks {
    k => Markov(M, k)
  }

  lemma FirstRowFits(p: nat, s: nat)
    requires s >= 1
    ensures p <= p * s
  {
  }

  lemma EmptyWhenUnused(p: nat, nc: nat)
    ensures nc == 0 ==> p * nc == 0
  {
  }

  lemma MarkovIsToeplitz(M: Model, s: int, C: Mat)
    requires HoldsMarkov(M, s, C)
    ensures Toeplitz(M.p, M.m, s, 0, MarkovBlocks(M), C)
    ensures Causal(M.p, M.m, MarkovBlocks(M))
    ensures FirstRowHolds(M.p, M.m, s, 0, MarkovBlocks(M), C)
  {
    var T := MarkovBlocks(M);
    MarkovIsCausal(M);
    hide Markov, IsBlock, Causal;
    forall q, y | 0 <= q < s && 0 <= y < s
      ensures ToeplitzBlock(M.p, M.m, 0, T, C, q, y)
    {
      assert MarkovBlock(M, C, q, y);
    }
    forall j | 0 <= j < s
      ensures IsBlock(C, M.p, M.m, 0, j + 0, T(j))
    {
      assert MarkovBlock(M, C, 0, j);
    }
  }

  lemma MarkovIsCausal(M: Model)
    ensures Causal(M.p, M.m, MarkovBlocks(M))
  {
  }

  /** The blocks that the accumulation reads. */
  ghost predicate FirstRowHolds(p: int, m: int, s: int, off: int, T: Blocks, C: Mat) {
    forall j :: 0 <= j < s ==> IsBlock(C, p, m, 0, j + off, T(j))
  }

  lemma TailIsFirstRow(M: Model, s: int, C2: Mat)
    requires HoldsExtended(M, s, C2)
    ensures FirstRowHolds(M.p, M.m, s, 1, CausalTail(M, s), C2)
  {
    hide Markov, Block, IsBlock;
    forall j | 0 <= j < s
      ensures IsBlock(C2, M.p, M.m, 0, j + 1, CausalTail(M, s)(j))
    {
      assert ExtendedAt(M, s, C2, 0, j + 1);
    }
  }

  /** Storage that is still zero makes a valid controller. */
  lemma ZeroStorage(s: nat, p: nat, m: nat, C: Mat)
    requires forall i, j :: 0 <= i < p * s && 0 <= j < m * s ==> C(i, j) == 0.0
    ensures ZeroBelow(s, p, m, C)
  {
    forall rb, cb | 0 <= cb < rb < s
      ensures IsBlock(C, p, m, rb, cb, Zero())
    {
      forall r, c | 0 <= r < p && 0 <= c < m
        ensures BlockEntry(C, p, m, rb, cb, Zero(), r, c)
      {
        BlkRange(p, s, rb, r);
        BlkRange(m, s, cb, c);
      }
    }
  }

  /** A window that holds a history holds the signal that the history samples. */
  lemma HistoryIsSignal(v: seq<real>, w: nat, n: nat, history: seq<seq<real>>, z: Signal, t: int)
    requires Holds(v, 0, w, n, history)
    requires forall j, c :: 0 <= j < n && 0 <= c < w ==> Past(history, j, c) == z(t - 1 - j, c)
    ensures WindowOf(AsVec(v), w, n, z, t)
  {
    forall j, c | 0 <= j < n && 0 <= c < w
      ensures SubVector(AsVec(v), w, j)(c) == z(t - 1 - j, c)
    {
      assert SlotHolds(v, 0, w, history, j, c);
      assert Slot(0, w, j, c) == Blk(w, j, c);
    }
  }

  /** The moves computed by the controller track the desired outputs at least as well, penalty included, as
      any other moves v: the squared tracking error is the one of the model's trajectories over the horizon. */
  lemma OptimalPlan(M: Model, s: nat, A: Mat, B: Mat, C: Mat, D: Mat, Yp: Vec, Up: Vec, Ep: Vec,
                    planned: Vec, desired: Vec, weight: real, us: Vec, v: Vec, total: Vec, total': Vec,
                    y: Signal, u: Signal, e: Signal, y': Signal, u': Signal, e': Signal, t: int)
    requires M.na >= 1 && M.nb >= 1 && weight > 0.0
    requires PredictsWith(M, s, A, B, C, D)
    requires WindowOf(Yp, M.p, M.na, y, t) && WindowOf(Up, M.m, M.nb, u, t) && WindowOf(Ep, M.p, M.nc, e, t)
    requires WindowOf(Yp, M.p, M.na, y', t) && WindowOf(Up, M.m, M.nb, u', t) && WindowOf(Ep, M.p, M.nc, e', t)
    requires forall i :: 0 <= i < M.m * s ==> total(i) == planned(i) + us(i)
    requires forall i :: 0 <= i < M.m * s ==> total'(i) == planned(i) + v(i)
    requires PlanOf(total, M.m, s, u, t) && PlanOf(total', M.m, s, u', t)
    requires Trajectory(M, y, u, e, t, s - 1) && Trajectory(M, y', u', e', t, s - 1)
    requires Solves(M.m * s, Regularized(M.p * s, C, weight), us,
                    Apply(M.p * s, Transpose(C),
                          Tracking(M.p * M.na, M.m * M.nb, M.p * M.nc, M.m * s, A, Yp, B, Up, C, planned, D, Ep,
                                   desired)))
    ensures Achieved(M, s, M.m * s, desired, y, t, weight, us) <= Achieved(M, s, M.m * s, desired, y', t, weight, v)
    ensures (exists i :: 0 <= i < M.m * s && v(i) != us(i)) ==>
              Achieved(M, s, M.m * s, desired, y, t, weight, us) < Achieved(M, s, M.m * s, desired, y', t, weight, v)
  {
    var w := Tracking(M.p * M.na, M.m * M.nb, M.p * M.nc, M.m * s, A, Yp, B, Up, C, planned, D, Ep, desired);
    ObjectiveIsTracking(M, s, A, B, C, D, Yp, Up, Ep, planned, us, total, desired, weight, y, u, e, t);
    ObjectiveIsTracking(M, s, A, B, C, D, Yp, Up, Ep, planned, v, total', desired, weight, y', u', e', t);
    hide Objective, Achieved, Tracking, Solves, Regularized, Trajectory, WindowOf, PlanOf, PredictsWith;
    SolutionIsOptimal(M.p * s, M.m * s, C, weight, w, us, v);
  }

  lemma ObjectiveIsTracking(M: Model, s: nat, A: Mat, B: Mat, C: Mat, D: Mat, Yp: Vec, Up: Vec, Ep: Vec,
                            planned: Vec, v: Vec, total: Vec, desired: Vec, weight: real,
                            y: Signal, u: Signal, e: Signal, t: int)
    requires M.na >= 1 && M.nb >= 1
    requires PredictsWith(M, s, A, B, C, D)
    requires WindowOf(Yp, M.p, M.na, y, t) && WindowOf(Up, M.m, M.nb, u, t) && WindowOf(Ep, M.p, M.nc, e, t)
    requires forall i :: 0 <= i < M.m * s ==> total(i) == planned(i) + v(i)
    requires PlanOf(total, M.m, s, u, t)
    requires Trajectory(M, y, u, e, t, s - 1)
    ensures Objective(M.p * s, M.m * s, C, weight,
                      Tracking(M.p * M.na, M.m * M.nb, M.p * M.nc, M.m * s, A, Yp, B, Up, C, planned, D, Ep, desired),
                      v)
         == Achieved(M, s, M.m * s, desired, y, t, weight, v)
  {
    var w := Tracking(M.p * M.na, M.m * M.nb, M.p * M.nc, M.m * s, A, Yp, B, Up, C, planned, D, Ep, desired);
    var f, g := Minus(w, Apply(M.m * s, C, v)), TrackingError(M.p, s, desired, y, t);
    hide PredictsWith, WindowOf, PlanOf, Trajectory, Tracking, Minus, TrackingError, Apply, Dot;
    forall k | 0 <= k < M.p * s
      ensures f(k) == g(k)
    {
      ResidualIsTrackingError(M, s, A, B, C, D, Yp, Up, Ep, planned, v, total, desired, y, u, e, t, k);
    }
    DotEq(M.p * s, f, f, g, g);
  }
}

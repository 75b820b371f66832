// GPC_Control and GPC_Control2 of utils/GPC.c: they accumulate C'*C block by block, add the penalty, form
// the residual of the free response, and hand the system to the packed solver.
module Controller {
  import opened LinearAlgebra
  import opened Sums
  import opened MatrixLibrary
  import opened BlockMatrices
  import opened GramTheory
  import opened Gram
  import opened ControlTheory
  import opened Udu
  import opened LinearSystems

  /** The accumulator is C'*C in every entry. */
  lemma GramEverywhere(p: nat, m: nat, s: nat, off: nat, T: Blocks, C: Mat, G: Mat)
    requires Toeplitz(p, m, s, off, T, C) && Causal(p, m, T)
    requires Accumulated(p, m, s + off, T, off, s, s, G)
    ensures forall i, j :: 0 <= i < m * (s + off) && 0 <= j < m * (s + off) ==>
              G(i, j) == Product(p * s, Transpose(C), C)(i, j)
  {
    hide Toeplitz, Causal, Accumulated;
    forall i, j | 0 <= i < m * (s + off) && 0 <= j < m * (s + off)
      ensures G(i, j) == Product(p * s, Transpose(C), C)(i, j)
    {
      Decompose(m, s + off, i);
      Decompose(m, s + off, j);
      AccumulatedIsGram(p, m, s, off, T, C, G, i / m, j / m, i % m, j % m);
    }
  }

  /** The packed solver sees exactly the regularized system. */
  lemma SystemIsRegularized(n: int, q: int, C: Mat, weight: real, G: Mat, E: Mat, S: Mat)
    requires forall i, j :: 0 <= i < n && 0 <= j < n ==> G(i, j) == Product(q, Transpose(C), C)(i, j)
    requires forall i, j :: 0 <= i < n && 0 <= j < n ==> E(i, j) == if i == j then weight else 0.0
    requires IsSum(n, n, G, 1.0, E, S)
    ensures forall i, j :: 0 <= i < n && 0 <= j < n ==> FromLowerTriangle(S)(i, j) == Regularized(q, C, weight)(i, j)
  {
    RegularizedSymmetric(q, n, C, weight);
    forall i, j | 0 <= i < n && 0 <= j < n
      ensures FromLowerTriangle(S)(i, j) == Regularized(q, C, weight)(i, j)
    {
      assert SumAt(G, 1.0, E, S, i, j) && SumAt(G, 1.0, E, S, j, i);
      assert Regularized(q, C, weight)(i, j) == Regularized(q, C, weight)(j, i);
    }
  }

  /** K'*K + weight*I, by the block accumulation, where K continues the first block row of C along its diagonals. */
  method BuildSystem(C: array2<real>, weight: real, p: nat, m: nat, s: nat, off: nat, ghost T: Blocks, ghost K: Mat)
    returns (S: array2<real>)
    requires C.Length0 == p * s && C.Length1 == m * (s + off) && (s > 0 ==> p <= C.Length0)
    requires forall j :: 0 <= j < s ==> IsBlock(MatOf(C), p, m, 0, j + off, T(j))
    requires Toeplitz(p, m, s, off, T, K) && Causal(p, m, T)
    ensures fresh(S) && S.Length0 == S.Length1 == m * (s + off)
    ensures forall i, j :: 0 <= i < m * (s + off) && 0 <= j < m * (s + off) ==>
              FromLowerTriangle(MatOf(S))(i, j) == Regularized(p * s, K, weight)(i, j)
  {
    var n := m * (s + off);
    var G, E := new real[n, n]((i, j) => 0.0), new real[n, n];
    S := new real[n, n];
    if s > 0 {
      Accumulate(C, G, p, m, s, off, T);
    } else {
      StartsAtZero(p, m, s, T, off, MatOf(G));
    }
    MatrixEye(E, weight);
    ghost var g, e := MatOf(G), MatOf(E);
    MatrixSum(G, E, S, 1.0);
    GramEverywhere(p, m, s, off, T, K, g);
    SystemIsRegularized(n, p * s, K, weight, g, e, MatOf(S));
  }

  /** A*x in a scratch vector. */
  method OutputOf(A: array2<real>, x: array<real>) returns (r: array<real>)
    requires A.Length1 == x.Length
    ensures fresh(r) && r.Length == A.Length0
    ensures forall i :: 0 <= i < r.Length ==> r[i] == Apply(x.Length, MatOf(A), AsVec(x[..]))(i)
  {
    r := new real[A.Length0];
    MatrixVectorProd(A, x, r);
  }

  /** x - y in a scratch vector. */
  method Difference(x: array<real>, y: array<real>) returns (r: array<real>)
    requires x.Length == y.Length
    ensures fresh(r) && r.Length == x.Length
    ensures forall i :: 0 <= i < r.Length ==> r[i] == x[i] - y[i]
  {
    r := new real[x.Length];
    VectorSum(x, y, r, -1.0);
  }

  /** The desired outputs minus everything that is already determined. */
  method FreeResidual(A: array2<real>, Yp: array<real>, B: array2<real>, Up: array<real>, C: array2<real>,
                      planned: array<real>, D: array2<real>, Ep: array<real>, Ydes: array<real>, nc: nat)
    returns (w: array<real>)
    requires A.Length0 == B.Length0 == C.Length0 == D.Length0 == Ydes.Length
    requires A.Length1 == Yp.Length && B.Length1 == Up.Length && C.Length1 == planned.Length && D.Length1 == Ep.Length
    requires nc == 0 ==> Ep.Length == 0
    ensures fresh(w) && w.Length == Ydes.Length
    ensures forall i :: 0 <= i < w.Length ==>
              w[i] == Tracking(Yp.Length, Up.Length, Ep.Length, planned.Length, MatOf(A), AsVec(Yp[..]), MatOf(B),
                               AsVec(Up[..]), MatOf(C), AsVec(planned[..]), MatOf(D), AsVec(Ep[..]), AsVec(Ydes[..]))(i)
  {
    hide Apply;
    var a := OutputOf(A, Yp);
    var b := OutputOf(B, Up);
    var c := OutputOf(C, planned);
    var r1 := Difference(Ydes, a);
    var r2 := Difference(r1, b);
    var r3 := Difference(r2, c);
    if nc > 0 {
      var d := OutputOf(D, Ep);
      w := Difference(r3, d);
    } else {
      NothingFromEmpty(MatOf(D), AsVec(Ep[..]));
      w := r3;
    }
  }

  lemma NothingFromEmpty(D: Mat, x: Vec)
    ensures forall i {:trigger Apply(0, D, x)(i)} :: Apply(0, D, x)(i) == 0.0
  {
  }

  /** Solves the system whose matrix is R; the lower triangle of S is that of R. */
  method SolveSystem(S: array2<real>, rhs: array<real>, Us: array<real>, ghost R: Mat, ghost target: Vec)
    returns (ok: bool)
    requires S.Length0 == S.Length1 == rhs.Length == Us.Length && rhs != Us
    requires forall i, j :: 0 <= i < Us.Length && 0 <= j < Us.Length ==> FromLowerTriangle(MatOf(S))(i, j) == R(i, j)
    requires forall i :: 0 <= i < Us.Length ==> rhs[i] == target(i)
    modifies rhs, Us
    ensures ok ==> Solves(Us.Length, R, AsVec(Us[..]), target)
    ensures BoundedBelow(Us.Length, R, THRESHOLD) ==> ok
  {
    hide FromLowerTriangle, Solves, BoundedBelow;
    var n := Us.Length;
    ghost var L, b := FromLowerTriangle(MatOf(S)), AsVec(rhs[..]);
    var aa := new real[n * (n + 1) / 2];
    TriFormula(n);
    if BoundedBelow(n, R, THRESHOLD) {
      BoundTransfers(n, R, L, THRESHOLD);
    }
    ok := LinearSystemV(S, rhs, Us, aa);
    if ok {
      SolutionTransfers(n, L, R, AsVec(Us[..]), AsVec(Us[..]), b);
      RightHandSideTransfers(n, R, AsVec(Us[..]), b, target);
    }
  }

  /** The common body of the two controllers; the model reports whether the factorization succeeded. */
  method SolveControl(A: array2<real>, Yp: array<real>, B: array2<real>, Up: array<real>, C: array2<real>,
                      planned: array<real>, D: array2<real>, Ep: array<real>, Ydes: array<real>, weight: real,
                      p: nat, m: nat, s: nat, off: nat, nc: nat, Us: array<real>, ghost T: Blocks,
                      ghost K: Mat) returns (ok: bool)
    requires A.Length0 == B.Length0 == C.Length0 == D.Length0 == Ydes.Length == p * s
    requires A.Length1 == Yp.Length && B.Length1 == Up.Length && C.Length1 == planned.Length && D.Length1 == Ep.Length
    requires nc == 0 ==> Ep.Length == 0
    requires C.Length1 == Us.Length == m * (s + off) && (s > 0 ==> p <= C.Length0)
    requires forall j :: 0 <= j < s ==> IsBlock(MatOf(C), p, m, 0, j + off, T(j))
    requires Toeplitz(p, m, s, off, T, K) && Causal(p, m, T)
    requires Us != Yp && Us != Up && Us != Ep && Us != Ydes && Us != planned
    modifies Us
    ensures ok ==>
              Solves(Us.Length, Regularized(p * s, K, weight), AsVec(Us[..]),
                     Apply(p * s, Transpose(MatOf(C)),
                           Tracking(Yp.Length, Up.Length, Ep.Length, planned.Length, MatOf(A), AsVec(Yp[..]), MatOf(B),
                                    AsVec(Up[..]), MatOf(C), AsVec(planned[..]), MatOf(D), AsVec(Ep[..]),
                                    AsVec(Ydes[..]))))
    ensures weight >= THRESHOLD ==> ok
  {
    hide Toeplitz, Causal, Tracking, Regularized, FromLowerTriangle, Apply, IsBlock;
    var S := BuildSystem(C, weight, p, m, s, off, T, K);
    var w := FreeResidual(A, Yp, B, Up, C, planned, D, Ep, Ydes, nc);
    var n := Us.Length;
    var rhs := new real[n];
    TransposeVectorProd(C, w, rhs);
    ghost var target := Tracking(Yp.Length, Up.Length, Ep.Length, planned.Length, MatOf(A), AsVec(Yp[..]), MatOf(B),
                                 AsVec(Up[..]), MatOf(C), AsVec(planned[..]), MatOf(D), AsVec(Ep[..]), AsVec(Ydes[..]));
    RightHandSide(p * s, n, MatOf(C), AsVec(w[..]), target, AsVec(rhs[..]));
    if weight >= THRESHOLD {
      RegularizedBounded(p * s, n, K, weight, THRESHOLD);
    }
    ok := SolveSystem(S, rhs, Us, Regularized(p * s, K, weight), Apply(p * s, Transpose(MatOf(C)), target));
  }

  lemma RightHandSide(q: int, n: int, C: Mat, w: Vec, target: Vec, b: Vec)
    requires forall i :: 0 <= i < q ==> w(i) == target(i)
    requires forall i :: 0 <= i < n ==> b(i) == Apply(q, Transpose(C), w)(i)
    ensures forall i :: 0 <= i < n ==> b(i) == Apply(q, Transpose(C), target)(i)
  {
    forall i | 0 <= i < n
      ensures b(i) == Apply(q, Transpose(C), target)(i)
    {
      ApplyEq(q, Transpose(C), Transpose(C), i, w, target);
    }
  }

  lemma RightHandSideTransfers(n: int, A: Mat, x: Vec, b: Vec, b': Vec)
    requires Solves(n, A, x, b)
    requires forall i :: 0 <= i < n ==> b(i) == b'(i)
    ensures Solves(n, A, x, b')
  {
  }
}

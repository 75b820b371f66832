// The drivers of utils/udu.c that the controllers call: pack the lower triangle, factor, solve.
module LinearSystems {
  import opened LinearAlgebra
  import opened Sums
  import opened MatrixLibrary
  import opened Udu
  import opened UduSolve
  import opened UduDefinite

  /** The symmetric matrix that has the same lower triangle as A. */
  ghost function FromLowerTriangle(A: Mat): (L: Mat)
    ensures forall i, j :: j <= i ==> L(i, j) == A(i, j) && L(j, i) == A(i, j)
  {
    (i, j) => if j <= i then A(i, j) else A(j, i)
  }

  /** matrix2upper_diagonal: row i of the lower triangle becomes column i of the packed triangle. */
  method PackLowerTriangle(A: array2<real>, aa: array<real>)
    requires A.Length0 == A.Length1 && Tri(A.Length0) <= aa.Length
    modifies aa
    ensures forall i, j :: 0 <= i < A.Length0 && 0 <= j < A.Length0 ==>
              Sym(aa[..])(i, j) == FromLowerTriangle(MatOf(A))(i, j)
  {
    var n := A.Length0;
    for i := 0 to n
      invariant forall p, q :: 0 <= q <= p < i ==> At(aa[..], q, p) == A[p, q]
    {
      for j := 0 to i + 1
        invariant forall p, q :: 0 <= q <= p < i ==> At(aa[..], q, p) == A[p, q]
        invariant forall q :: 0 <= q < j ==> At(aa[..], q, i) == A[i, q]
      {
        TriFormula(i);
        InRange(n, j, i);
        ghost var w := aa[..];
        aa[i * (i + 1) / 2 + j] := A[i, j];
        assert aa[..] == w[Ix(j, i) := A[i, j]];
        AtUpdate(n, w, j, i, A[i, j]);
      }
    }
  }

  /** Packing and factoring, common to both drivers.  The program ignores the code of udu_factor and goes
      on; the model reports it, because the sweeps divide by pivots that need not be non-zero then. */
  method FactorMatrix(A: array2<real>, aa: array<real>) returns (ok: bool)
    requires A.Length0 == A.Length1 && Tri(A.Length0) <= aa.Length
    modifies aa
    ensures ok ==> forall i, j :: 0 <= i < A.Length0 && 0 <= j < A.Length0 ==>
                     UDUt(aa[..], A.Length0)(i, j) == FromLowerTriangle(MatOf(A))(i, j)
    ensures ok ==> forall r :: 0 <= r < A.Length0 ==> D(aa[..], r) != 0.0
    ensures ok <==> exists f: seq<real> :: HasFactors(A.Length0, FromLowerTriangle(MatOf(A)), f)
    ensures BoundedBelow(A.Length0, FromLowerTriangle(MatOf(A)), THRESHOLD) ==> ok
  {
    var n := A.Length0;
    PackLowerTriangle(A, aa);
    ghost var a := aa[..];
    var code := UduFactor(n, aa);
    ok := code == 0;
    if BoundedBelow(n, FromLowerTriangle(MatOf(A)), THRESHOLD) {
      BoundTransfers(n, FromLowerTriangle(MatOf(A)), Sym(a), THRESHOLD);
      if code != 0 {
        NeverBailsOut(n, -code - 1, a, aa[..], THRESHOLD);
      }
    }
    FactorableExactly(n, a, aa[..], code, FromLowerTriangle(MatOf(A)));
  }

  lemma FactorableExactly(n: int, a: seq<real>, f: seq<real>, code: int, A: Mat)
    requires 0 <= n && forall i, j :: 0 <= i < n && 0 <= j < n ==> Sym(a)(i, j) == A(i, j)
    requires if code == 0 then FactorSuccess(n, a, f) else -n <= code <= -1 && FactorFailure(n, -code - 1, a, f)
    ensures code == 0 <==> exists g: seq<real> :: HasFactors(n, A, g)
  {
    if code == 0 {
      SuccessHasFactors(n, a, f);
      assert HasFactors(n, A, f);
    } else {
      forall g: seq<real>
        ensures !HasFactors(n, A, g)
      {
        if HasFactors(n, A, g) {
          assert HasFactors(n, Sym(a), g);
        }
        FailureHasNone(n, -code - 1, a, f, g);
      }
    }
  }

  lemma BoundTransfers(n: int, A: Mat, B: Mat, bound: real)
    requires forall i, j :: 0 <= i < n && 0 <= j < n ==> A(i, j) == B(i, j)
    requires BoundedBelow(n, A, bound)
    ensures BoundedBelow(n, B, bound)
  {
    forall x: Vec
      ensures Quad(n, B, x) >= bound * Dot(n, x, x)
    {
      assert Quad(n, A, x) >= bound * Dot(n, x, x);
      QuadEq(n, A, B, x);
    }
  }

  /** LinearSystemV: x (and b, which is overwritten) becomes the solution of A*x = b. */
  method LinearSystemV(A: array2<real>, b: array<real>, x: array<real>, aa: array<real>) returns (ok: bool)
    requires A.Length0 == A.Length1 == b.Length == x.Length && Tri(A.Length0) <= aa.Length
    requires aa != b && aa != x && b != x
    modifies aa, b, x
    ensures ok ==> Solves(x.Length, FromLowerTriangle(MatOf(A)), AsVec(x[..]), AsVec(old(b[..])))
    ensures ok ==> b[..] == x[..]
    ensures ok <==> exists f: seq<real> :: HasFactors(A.Length0, FromLowerTriangle(MatOf(A)), f)
    ensures BoundedBelow(A.Length0, FromLowerTriangle(MatOf(A)), THRESHOLD) ==> ok
  {
    var n := A.Length0;
    ok := FactorMatrix(A, aa);
    if ok {
      ghost var b0 := b[..];
      Solve(n, aa, b);
      VectorCopy(x, b, 1.0);
      assert b[..] == x[..];
      SolutionTransfers(n, UDUt(aa[..], n), FromLowerTriangle(MatOf(A)), AsVec(b[..]), AsVec(x[..]), AsVec(b0));
    }
  }

  /** Column i of X is the solution for column i of B. */
  ghost predicate ColumnSolved(n: int, A: Mat, X: Mat, B: Mat, i: int) {
    Solves(n, A, Column(X, i), Column(B, i))
  }

  /** LinearSystemM: A*X = B column by column; A and B are unchanged. */
  method LinearSystemM(A: array2<real>, B: array2<real>, X: array2<real>, aa: array<real>, bb: array<real>)
    returns (ok: bool)
    requires A.Length0 == A.Length1 == B.Length0 == X.Length0 == bb.Length && B.Length1 == X.Length1
    requires Tri(A.Length0) <= aa.Length
    requires aa != bb && X != A && X != B
    modifies aa, bb, X
    ensures ok ==> forall i :: 0 <= i < B.Length1 ==>
                     ColumnSolved(A.Length0, FromLowerTriangle(MatOf(A)), MatOf(X), MatOf(B), i)
    ensures ok <==> exists f: seq<real> :: HasFactors(A.Length0, FromLowerTriangle(MatOf(A)), f)
    ensures BoundedBelow(A.Length0, FromLowerTriangle(MatOf(A)), THRESHOLD) ==> ok
  {
    var n := A.Length0;
    ghost var L := FromLowerTriangle(MatOf(A));
    ok := FactorMatrix(A, aa);
    ghost var factors := exists g: seq<real> :: HasFactors(n, L, g);
    assert ok == factors;
    if ok {
      ghost var f := aa[..];
      for i := 0 to B.Length1
        invariant aa[..] == f
        invariant forall q :: 0 <= q < i ==> ColumnSolved(n, L, MatOf(X), MatOf(B), q)
      {
        for j := 0 to n
          invariant aa[..] == f
          invariant forall q :: 0 <= q < j ==> bb[q] == B[q, i]
          invariant forall q :: 0 <= q < i ==> ColumnSolved(n, L, MatOf(X), MatOf(B), q)
        {
          bb[j] := B[j, i];
        }
        ghost var b0, X0 := bb[..], MatOf(X);
        Solve(n, aa, bb);
        ghost var x := bb[..];
        for j := 0 to n
          invariant aa[..] == f && bb[..] == x
          invariant forall q :: 0 <= q < j ==> X[q, i] == bb[q]
          invariant forall p, q :: 0 <= p < n && 0 <= q < X.Length1 && q != i ==> X[p, q] == X0(p, q)
        {
          X[j, i] := bb[j];
        }
        SolutionTransfers(n, UDUt(f, n), L, AsVec(bb[..]), Column(MatOf(X), i), AsVec(b0));
        ColumnsKept(n, L, X0, MatOf(X), MatOf(B), AsVec(b0), i);
      }
    }
    assert FromLowerTriangle(MatOf(A)) == L;
  }

  lemma ColumnsKept(n: int, A: Mat, X: Mat, X': Mat, B: Mat, b: Vec, i: int)
    requires 0 <= i
    requires forall q :: 0 <= q < i ==> ColumnSolved(n, A, X, B, q)
    requires forall p, q :: 0 <= p < n && 0 <= q < i ==> X'(p, q) == X(p, q)
    requires forall p :: 0 <= p < n ==> b(p) == B(p, i)
    requires Solves(n, A, Column(X', i), b)
    ensures forall q :: 0 <= q <= i ==> ColumnSolved(n, A, X', B, q)
  {
    forall q | 0 <= q < i
      ensures ColumnSolved(n, A, X', B, q)
    {
      assert ColumnSolved(n, A, X, B, q);
      SolutionTransfers(n, A, A, Column(X, q), Column(X', q), Column(B, q));
    }
    assert Solves(n, A, Column(X', i), Column(B, i));
  }
}

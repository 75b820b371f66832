// The operations of libraries/libann/matrix.c that the controller and the solver drivers use,
// on two-dimensional arrays and on vectors stored as arrays.
module MatrixLibrary {
  import opened LinearAlgebra
  import opened Sums

  ghost predicate Agrees(a: array2<real>, f: Mat)
    reads a
  {
    forall i, j :: 0 <= i < a.Length0 && 0 <= j < a.Length1 ==> f(i, j) == a[i, j]
  }

  lemma ContentsExist(a: array2<real>)
    ensures exists f: Mat :: Agrees(a, f)
  {
    var rows := seq(a.Length0, i requires 0 <= i < a.Length0 reads a =>
      seq(a.Length1, j requires 0 <= j < a.Length1 reads a => a[i, j]));
    var f: Mat := (i, j) => if 0 <= i < |rows| && 0 <= j < |rows[i]| then rows[i][j] else 0.0;
    assert Agrees(a, f);
  }

  /** The current contents of a matrix; what lies outside its range is unspecified. */
  ghost function MatOf(a: array2<real>): (f: Mat)
    reads a
    ensures forall i, j :: 0 <= i < a.Length0 && 0 <= j < a.Length1 ==> f(i, j) == a[i, j]
  {
    ContentsExist(a);
    var f: Mat :| Agrees(a, f);
    f
  }

  // the meaning of the operations, entry by entry

  ghost predicate OuterAt(k: real, x: Vec, y: Vec, R: Mat, i: int, j: int) {
    R(i, j) == k * x(i) * y(j)
  }

  ghost predicate IsOuter(m: int, n: int, k: real, x: Vec, y: Vec, R: Mat) {
    forall i, j :: 0 <= i < m && 0 <= j < n ==> OuterAt(k, x, y, R, i, j)
  }

  ghost predicate SumAt(A: Mat, k: real, B: Mat, R: Mat, i: int, j: int) {
    R(i, j) == A(i, j) + k * B(i, j)
  }

  ghost predicate IsSum(m: int, n: int, A: Mat, k: real, B: Mat, R: Mat) {
    forall i, j :: 0 <= i < m && 0 <= j < n ==> SumAt(A, k, B, R, i, j)
  }

  ghost predicate ScaledAt(k: real, A: Mat, R: Mat, i: int, j: int) {
    R(i, j) == k * A(i, j)
  }

  ghost predicate IsScaled(m: int, n: int, k: real, A: Mat, R: Mat) {
    forall i, j :: 0 <= i < m && 0 <= j < n ==> ScaledAt(k, A, R, i, j)
  }

  lemma SameProduct(k: real, a: real, b: real, a': real, b': real)
    requires a == a' && b == b'
    ensures k * a * b == k * a' * b'
  {
  }

  /** vector_copy: x = k*y. */
  method VectorCopy(x: array<real>, y: array<real>, k: real)
    requires x.Length == y.Length
    modifies x
    ensures forall i :: 0 <= i < x.Length ==> x[i] == k * old(y[i])
  {
    for i := 0 to x.Length
      invariant forall q :: 0 <= q < i ==> x[q] == k * old(y[q])
      invariant forall q :: i <= q < x.Length ==> x[q] == old(x[q])
      invariant forall q :: i <= q < x.Length ==> y[q] == old(y[q])
    {
      x[i] := k * y[i];
    }
  }

  /** vector_sum: r = x + k*y. */
  method VectorSum(x: array<real>, y: array<real>, r: array<real>, k: real)
    requires x.Length == y.Length == r.Length
    modifies r
    ensures forall i :: 0 <= i < r.Length ==> r[i] == old(x[i]) + k * old(y[i])
  {
    for i := 0 to r.Length
      invariant forall q :: 0 <= q < i ==> r[q] == old(x[q]) + k * old(y[q])
      invariant forall q :: i <= q < r.Length ==> x[q] == old(x[q]) && y[q] == old(y[q])
    {
      r[i] := x[i] + k * y[i];
    }
  }

  /** scalar_prod. */
  method ScalarProd(x: array<real>, y: array<real>) returns (r: real)
    requires x.Length == y.Length
    ensures r == Dot(x.Length, AsVec(x[..]), AsVec(y[..]))
  {
    r := 0.0;
    for i := 0 to x.Length
      invariant r == Sum(0, i, Times(AsVec(x[..]), AsVec(y[..])))
    {
      r := r + x[i] * y[i];
    }
  }

  /** vector_vector_prod: r = k*x*y'. */
  method OuterProd(x: array<real>, y: array<real>, r: array2<real>, k: real)
    requires r.Length0 == x.Length && r.Length1 == y.Length
    modifies r
    ensures IsOuter(r.Length0, r.Length1, k, AsVec(x[..]), AsVec(y[..]), MatOf(r))
  {
    forall i, j | 0 <= i < r.Length0 && 0 <= j < r.Length1 {
      r[i, j] := k * x[i] * y[j];
    }
    forall i, j | 0 <= i < r.Length0 && 0 <= j < r.Length1
      ensures OuterAt(k, AsVec(x[..]), AsVec(y[..]), MatOf(r), i, j)
    {
      SameProduct(k, x[i], y[j], AsVec(x[..])(i), AsVec(y[..])(j));
    }
  }

  /** matrix_sum: r = a + k*b; r may be one of the operands. */
  method MatrixSum(a: array2<real>, b: array2<real>, r: array2<real>, k: real)
    requires a.Length0 == b.Length0 == r.Length0 && a.Length1 == b.Length1 == r.Length1
    modifies r
    ensures IsSum(r.Length0, r.Length1, old(MatOf(a)), k, old(MatOf(b)), MatOf(r))
  {
    forall i, j | 0 <= i < r.Length0 && 0 <= j < r.Length1 {
      r[i, j] := a[i, j] + k * b[i, j];
    }
  }

  /** matrix_copy onto itself: a = k*a. */
  method MatrixScale(a: array2<real>, k: real)
    modifies a
    ensures IsScaled(a.Length0, a.Length1, k, old(MatOf(a)), MatOf(a))
  {
    forall i, j | 0 <= i < a.Length0 && 0 <= j < a.Length1 {
      a[i, j] := k * a[i, j];
    }
  }

  /** matrix_eye: a = k*I. */
  method MatrixEye(a: array2<real>, k: real)
    modifies a
    ensures forall i, j :: 0 <= i < a.Length0 && 0 <= j < a.Length1 ==> a[i, j] == if i == j then k else 0.0
  {
    forall i, j | 0 <= i < a.Length0 && 0 <= j < a.Length1 {
      a[i, j] := if i == j then k else 0.0;
    }
  }

  /** vector_init: x = 0. */
  method VectorZero(x: array<real>)
    modifies x
    ensures forall i :: 0 <= i < x.Length ==> x[i] == 0.0
  {
    forall i | 0 <= i < x.Length {
      x[i] := 0.0;
    }
  }

  /** matrix_vector_prod: r = a*x. */
  method MatrixVectorProd(a: array2<real>, x: array<real>, r: array<real>)
    requires a.Length1 == x.Length && a.Length0 == r.Length && r != x
    modifies r
    ensures forall i :: 0 <= i < r.Length ==> r[i] == Apply(a.Length1, MatOf(a), AsVec(x[..]))(i)
  {
    for i := 0 to r.Length
      invariant forall q :: 0 <= q < i ==> r[q] == Apply(a.Length1, MatOf(a), AsVec(x[..]))(q)
    {
      r[i] := 0.0;
      for j := 0 to a.Length1
        invariant forall q :: 0 <= q < i ==> r[q] == Apply(a.Length1, MatOf(a), AsVec(x[..]))(q)
        invariant r[i] == Sum(0, j, RowTimes(MatOf(a), i, AsVec(x[..])))
      {
        r[i] := r[i] + a[i, j] * x[j];
      }
    }
  }

  /** matrixT_vector_prod: r = a'*x. */
  method TransposeVectorProd(a: array2<real>, x: array<real>, r: array<real>)
    requires a.Length0 == x.Length && a.Length1 == r.Length && r != x
    modifies r
    ensures forall i :: 0 <= i < r.Length ==> r[i] == Apply(a.Length0, Transpose(MatOf(a)), AsVec(x[..]))(i)
  {
    for i := 0 to r.Length
      invariant forall q :: 0 <= q < i ==> r[q] == Apply(a.Length0, Transpose(MatOf(a)), AsVec(x[..]))(q)
    {
      r[i] := 0.0;
      for j := 0 to a.Length0
        invariant forall q :: 0 <= q < i ==> r[q] == Apply(a.Length0, Transpose(MatOf(a)), AsVec(x[..]))(q)
        invariant r[i] == Sum(0, j, RowTimes(Transpose(MatOf(a)), i, AsVec(x[..])))
      {
        r[i] := r[i] + a[j, i] * x[j];
      }
    }
  }

  /** Entry (i, j) of matrix_prod and of matrix_transpose_prod: a running sum of products. */
  method EntryOfProd(a: array2<real>, b: array2<real>, i: nat, j: nat) returns (r: real)
    requires a.Length1 == b.Length0 && i < a.Length0 && j < b.Length1
    ensures r == Product(a.Length1, MatOf(a), MatOf(b))(i, j)
  {
    r := 0.0;
    for k := 0 to a.Length1
      invariant r == Sum(0, k, ProdTerms(MatOf(a), MatOf(b), i, j))
    {
      r := r + a[i, k] * b[k, j];
    }
  }

  method EntryOfTransposeProd(a: array2<real>, b: array2<real>, i: nat, j: nat) returns (r: real)
    requires a.Length0 == b.Length0 && i < a.Length1 && j < b.Length1
    ensures r == Product(a.Length0, Transpose(MatOf(a)), MatOf(b))(i, j)
  {
    r := 0.0;
    for k := 0 to a.Length0
      invariant r == Sum(0, k, ProdTerms(Transpose(MatOf(a)), MatOf(b), i, j))
    {
      r := r + a[k, i] * b[k, j];
    }
  }

  /** matrix_prod with unit factor: r = a*b. */
  method MatrixProd(a: array2<real>, b: array2<real>, r: array2<real>)
    requires a.Length1 == b.Length0 && r.Length0 == a.Length0 && r.Length1 == b.Length1
    requires r != a && r != b
    modifies r
    ensures forall i, j :: 0 <= i < r.Length0 && 0 <= j < r.Length1 ==>
              r[i, j] == Product(a.Length1, MatOf(a), MatOf(b))(i, j)
  {
    ghost var p := Product(a.Length1, MatOf(a), MatOf(b));
    for i := 0 to r.Length0
      invariant forall q, j :: 0 <= q < i && 0 <= j < r.Length1 ==> r[q, j] == p(q, j)
    {
      for j := 0 to r.Length1
        invariant forall q, j :: 0 <= q < i && 0 <= j < r.Length1 ==> r[q, j] == p(q, j)
        invariant forall q :: 0 <= q < j ==> r[i, q] == p(i, q)
      {
        var e := EntryOfProd(a, b, i, j);
        r[i, j] := e;
      }
    }
  }

  /** matrix_transpose_prod with unit factor: r = a'*b. */
  method TransposeProd(a: array2<real>, b: array2<real>, r: array2<real>)
    requires a.Length0 == b.Length0 && r.Length0 == a.Length1 && r.Length1 == b.Length1
    requires r != a && r != b
    modifies r
    ensures forall i, j :: 0 <= i < r.Length0 && 0 <= j < r.Length1 ==>
              r[i, j] == Product(a.Length0, Transpose(MatOf(a)), MatOf(b))(i, j)
  {
    ghost var p := Product(a.Length0, Transpose(MatOf(a)), MatOf(b));
    for i := 0 to r.Length0
      invariant forall q, j :: 0 <= q < i && 0 <= j < r.Length1 ==> r[q, j] == p(q, j)
    {
      for j := 0 to r.Length1
        invariant forall q, j :: 0 <= q < i && 0 <= j < r.Length1 ==> r[q, j] == p(q, j)
        invariant forall q :: 0 <= q < j ==> r[i, q] == p(i, q)
      {
        var e := EntryOfTransposeProd(a, b, i, j);
        r[i, j] := e;
      }
    }
  }

  /** sub_matrix_extract: sub is the block of big at (row, column). */
  method SubMatrixExtract(big: array2<real>, sub: array2<real>, row: nat, column: nat)
    requires row + sub.Length0 <= big.Length0 && column + sub.Length1 <= big.Length1 && big != sub
    modifies sub
    ensures forall i, j :: 0 <= i < sub.Length0 && 0 <= j < sub.Length1 ==> sub[i, j] == big[row + i, column + j]
  {
    forall i, j | 0 <= i < sub.Length0 && 0 <= j < sub.Length1 {
      sub[i, j] := big[row + i, column + j];
    }
  }

  /** sub_matrix_insert: the block of big at (row, column) becomes sub, nothing else changes. */
  method SubMatrixInsert(big: array2<real>, sub: array2<real>, row: nat, column: nat)
    requires row + sub.Length0 <= big.Length0 && column + sub.Length1 <= big.Length1 && big != sub
    modifies big
    ensures forall i, j :: 0 <= i < big.Length0 && 0 <= j < big.Length1 ==>
              big[i, j] == if row <= i < row + sub.Length0 && column <= j < column + sub.Length1
                           then sub[i - row, j - column] else old(big[i, j])
  {
    forall i, j | 0 <= i < big.Length0 && 0 <= j < big.Length1 {
      big[i, j] := if row <= i < row + sub.Length0 && column <= j < column + sub.Length1
                   then sub[i - row, j - column] else big[i, j];
    }
  }
}

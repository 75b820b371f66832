// The vector and matrix algebra that the numerical modules share.  Vectors and matrices are total
// functions on indices; every statement names the dimensions it is about.
module LinearAlgebra {
  import opened Sums

  /** A sequence read as a vector, 0 outside its range. */
  function AsVec(s: seq<real>): Vec {
    k => if 0 <= k < |s| then s[k] else 0.0
  }

  /** The terms of the product of row i of A with x. */
  ghost function RowTimes(A: Mat, i: int, x: Vec): Vec {
    j => A(i, j) * x(j)
  }

  /** A*x, for a matrix with n columns. */
  ghost function Apply(n: int, A: Mat, x: Vec): Vec {
    i => Sum(0, n, RowTimes(A, i, x))
  }

  /** A*x = b, for n equations in n unknowns. */
  ghost predicate Solves(n: int, A: Mat, x: Vec, b: Vec) {
    forall i :: 0 <= i < n ==> Apply(n, A, x)(i) == b(i)
  }

  ghost function Times(x: Vec, y: Vec): Vec {
    i => x(i) * y(i)
  }

  ghost function Dot(n: int, x: Vec, y: Vec): real {
    Sum(0, n, Times(x, y))
  }

  /** The quadratic form x'Ax. */
  ghost function Quad(n: int, A: Mat, x: Vec): real {
    Dot(n, x, Apply(n, A, x))
  }

  ghost function Transpose(A: Mat): Mat {
    (i, j) => A(j, i)
  }

  ghost function Column(A: Mat, c: int): Vec {
    r => A(r, c)
  }

  ghost function Row(A: Mat, r: int): Vec {
    c => A(r, c)
  }

  ghost function Minus(x: Vec, y: Vec): Vec {
    i => x(i) - y(i)
  }

  /** a*I. */
  ghost function ScaledIdentity(a: real): Mat {
    (i, j) => if i == j then a else 0.0
  }

  ghost predicate Symmetric(n: int, A: Mat) {
    forall i, j :: 0 <= i < n && 0 <= j < n ==> A(i, j) == A(j, i)
  }

  lemma DotEq(n: int, x: Vec, y: Vec, x': Vec, y': Vec)
    requires forall i :: 0 <= i < n ==> x(i) == x'(i) && y(i) == y'(i)
    ensures Dot(n, x, y) == Dot(n, x', y')
  {
    SumEq(0, n, Times(x, y), Times(x', y'));
  }

  lemma DotCommutes(n: int, x: Vec, y: Vec)
    ensures Dot(n, x, y) == Dot(n, y, x)
  {
    SumEq(0, n, Times(x, y), Times(y, x));
  }

  /** Linearity in the second argument: if w = a*y + b*z then x.w = a*x.y + b*x.z. */
  lemma DotLinear(n: int, x: Vec, a: real, y: Vec, b: real, z: Vec, w: Vec)
    requires forall i :: 0 <= i < n ==> w(i) == a * y(i) + b * z(i)
    ensures Dot(n, x, w) == a * Dot(n, x, y) + b * Dot(n, x, z)
  {
    forall i | 0 <= i < n
      ensures CombinesAt(a, Times(x, y), b, Times(x, z), Times(x, w), i)
    {
      LinearTerm(x(i), a, y(i), b, z(i), w(i), Times(x, y)(i), Times(x, z)(i), Times(x, w)(i));
    }
    SumLinear(0, n, a, Times(x, y), b, Times(x, z), Times(x, w));
  }

  /** x.x is a sum of squares: it bounds each square, and vanishes only with x. */
  lemma DotSelf(n: int, x: Vec)
    ensures Dot(n, x, x) >= 0.0
    ensures forall i :: 0 <= i < n ==> Dot(n, x, x) >= x(i) * x(i)
    ensures Dot(n, x, x) == 0.0 ==> forall i :: 0 <= i < n ==> x(i) == 0.0
  {
    forall i | 0 <= i < n
      ensures Times(x, x)(i) >= 0.0
    {
      Square(x(i), Times(x, x)(i));
    }
    SumNonNegative(0, n, Times(x, x));
    forall i | 0 <= i < n
      ensures Dot(n, x, x) >= x(i) * x(i)
      ensures Dot(n, x, x) == 0.0 ==> x(i) == 0.0
    {
      assert Dot(n, x, x) >= Times(x, x)(i);
      Square(x(i), Times(x, x)(i));
    }
  }

  /** x.(A*y) == (A'*x).y, for A with m rows and n columns. */
  lemma Adjoint(m: int, n: int, A: Mat, x: Vec, y: Vec)
    ensures Dot(m, x, Apply(n, A, y)) == Dot(n, Apply(m, Transpose(A), x), y)
  {
    var F: Mat := (i, j) => x(i) * A(i, j) * y(j);
    forall i | 0 <= i < m
      ensures Times(x, Apply(n, A, y))(i) == RowSums(0, n, F)(i)
    {
      SumScale(0, n, x(i), RowTimes(A, i, y), j => F(i, j));
    }
    SumEq(0, m, Times(x, Apply(n, A, y)), RowSums(0, n, F));
    forall j | 0 <= j < n
      ensures Times(Apply(m, Transpose(A), x), y)(j) == ColumnSums(0, m, F)(j)
    {
      SumScale(0, m, y(j), RowTimes(Transpose(A), j, x), i => F(i, j));
    }
    SumEq(0, n, Times(Apply(m, Transpose(A), x), y), ColumnSums(0, m, F));
    SumSwap(0, m, 0, n, F);
  }

  lemma SelfAdjoint(n: int, A: Mat, x: Vec, y: Vec)
    requires Symmetric(n, A)
    ensures Dot(n, Apply(n, A, x), y) == Dot(n, x, Apply(n, A, y))
  {
    forall i | 0 <= i < n
      ensures Apply(n, A, x)(i) == Apply(n, Transpose(A), x)(i)
    {
      ApplyEq(n, A, Transpose(A), i, x, x);
    }
    DotEq(n, Apply(n, A, x), y, Apply(n, Transpose(A), x), y);
    Adjoint(n, n, A, x, y);
  }

  lemma ApplyScaledIdentity(n: int, a: real, x: Vec, i: int)
    requires 0 <= i < n
    ensures Apply(n, ScaledIdentity(a), x)(i) == a * x(i)
  {
    SumSingle(0, n, i, RowTimes(ScaledIdentity(a), i, x));
  }

  lemma ApplyZero(n: int, Z: Mat, x: Vec, i: int)
    requires forall j :: 0 <= j < n ==> Z(i, j) == 0.0
    ensures Apply(n, Z, x)(i) == 0.0
  {
    SumZero(0, n, RowTimes(Z, i, x));
  }

  lemma ApplyEq(n: int, A: Mat, B: Mat, i: int, x: Vec, y: Vec)
    requires forall j :: 0 <= j < n ==> A(i, j) == B(i, j) && x(j) == y(j)
    ensures Apply(n, A, x)(i) == Apply(n, B, y)(i)
  {
    SumEq(0, n, RowTimes(A, i, x), RowTimes(B, i, y));
  }

  lemma SolutionTransfers(n: int, A: Mat, B: Mat, x: Vec, y: Vec, b: Vec)
    requires forall i, j :: 0 <= i < n && 0 <= j < n ==> A(i, j) == B(i, j)
    requires forall i :: 0 <= i < n ==> x(i) == y(i)
    requires Solves(n, A, x, b)
    ensures Solves(n, B, y, b)
  {
    forall i | 0 <= i < n
      ensures Apply(n, B, y)(i) == b(i)
    {
      ApplyEq(n, A, B, i, x, y);
    }
  }

  /** If z = a*x + b*y then row i of A*z is a*(A*x) + b*(A*y). */
  lemma ApplyLinear(n: int, A: Mat, i: int, a: real, x: Vec, b: real, y: Vec, z: Vec)
    requires forall j :: 0 <= j < n ==> z(j) == a * x(j) + b * y(j)
    ensures Apply(n, A, z)(i) == a * Apply(n, A, x)(i) + b * Apply(n, A, y)(i)
  {
    RowAsDot(n, A, i, x);
    RowAsDot(n, A, i, y);
    RowAsDot(n, A, i, z);
    hide Sum, Dot, Apply;
    DotLinear(n, Row(A, i), a, x, b, y, z);
  }

  lemma RowAsDot(n: int, A: Mat, i: int, x: Vec)
    ensures Apply(n, A, x)(i) == Dot(n, Row(A, i), x)
  {
    SumEq(0, n, RowTimes(A, i, x), Times(Row(A, i), x));
  }

  /** If C = a*A + b*B in row i then so is C*x. */
  lemma ApplySum(n: int, i: int, a: real, A: Mat, b: real, B: Mat, C: Mat, x: Vec)
    requires forall j :: 0 <= j < n ==> C(i, j) == a * A(i, j) + b * B(i, j)
    ensures Apply(n, C, x)(i) == a * Apply(n, A, x)(i) + b * Apply(n, B, x)(i)
  {
    RowAsDot(n, A, i, x);
    RowAsDot(n, B, i, x);
    RowAsDot(n, C, i, x);
    DotCommutes(n, Row(A, i), x);
    DotCommutes(n, Row(B, i), x);
    DotCommutes(n, Row(C, i), x);
    hide Sum, Dot, Apply;
    DotLinear(n, x, a, Row(A, i), b, Row(B, i), Row(C, i));
  }

  /** The terms of entry (i, j) of A*B. */
  ghost function ProdTerms(A: Mat, B: Mat, i: int, j: int): Vec {
    k => A(i, k) * B(k, j)
  }

  /** A*B, where A has q columns and B has q rows. */
  ghost function Product(q: int, A: Mat, B: Mat): Mat {
    (i, j) => Sum(0, q, ProdTerms(A, B, i, j))
  }

  /** (A*B)*x == A*(B*x), row by row. */
  lemma ApplyProduct(q: int, n: int, A: Mat, B: Mat, x: Vec, i: int)
    ensures Apply(n, Product(q, A, B), x)(i) == Apply(q, A, Apply(n, B, x))(i)
  {
    var F: Mat := (j, k) => A(i, k) * B(k, j) * x(j);
    forall j | 0 <= j < n
      ensures RowTimes(Product(q, A, B), i, x)(j) == RowSums(0, q, F)(j)
    {
      SumScale(0, q, x(j), ProdTerms(A, B, i, j), k => F(j, k));
    }
    SumEq(0, n, RowTimes(Product(q, A, B), i, x), RowSums(0, q, F));
    forall k | 0 <= k < q
      ensures RowTimes(A, i, Apply(n, B, x))(k) == ColumnSums(0, n, F)(k)
    {
      SumScale(0, n, A(i, k), RowTimes(B, k, x), j => F(j, k));
    }
    SumEq(0, q, RowTimes(A, i, Apply(n, B, x)), ColumnSums(0, n, F));
    SumSwap(0, n, 0, q, F);
  }

  lemma QuadEq(n: int, A: Mat, B: Mat, x: Vec)
    requires forall i, j :: 0 <= i < n && 0 <= j < n ==> A(i, j) == B(i, j)
    ensures Quad(n, A, x) == Quad(n, B, x)
  {
    forall i | 0 <= i < n
      ensures Apply(n, A, x)(i) == Apply(n, B, x)(i)
    {
      ApplyEq(n, A, B, i, x, x);
    }
    DotEq(n, x, Apply(n, A, x), x, Apply(n, B, x));
  }

  // ----- definiteness

  /** x'Ax >= bound * x'x for all x. */
  ghost predicate BoundedBelow(n: int, A: Mat, bound: real) {
    forall x: Vec :: Quad(n, A, x) >= bound * Dot(n, x, x)
  }

  ghost predicate NonZero(n: int, x: Vec) {
    exists i :: 0 <= i < n && x(i) != 0.0
  }

  ghost predicate PositiveDefinite(n: int, A: Mat) {
    forall x: Vec :: NonZero(n, x) ==> Quad(n, A, x) > 0.0
  }
}

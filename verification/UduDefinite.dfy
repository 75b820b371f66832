// When the elimination of udu_factor can be trusted: the pivots of a matrix whose quadratic form is
// bounded below are bounded below too, a complete factorization decides definiteness, and the
// packed factors of a matrix are unique.
module UduDefinite {
  import opened LinearAlgebra
  import opened Sums
  import opened Udu
  import opened UduSolve

  // ----- the vector that reveals a pivot

  /** Component k of U'x vanishes. */
  ghost predicate Annihilated(f: seq<real>, x: Vec, k: int) {
    x(k) == -Sum(0, k, LowerTerms(f, k, x))
  }

  /** x is 1 at c, 0 before c and after top, and U'x vanishes at c+1..top. */
  ghost predicate Reveals(f: seq<real>, c: int, top: int, x: Vec) {
    && x(c) == 1.0
    && (forall i :: i < c || i > top ==> x(i) == 0.0)
    && (forall k :: c < k <= top ==> Annihilated(f, x, k))
  }

  lemma MakeWitness(f: seq<real>, c: int, top: int) returns (x: Vec)
    requires 0 <= c <= top
    ensures Reveals(f, c, top, x)
  {
    x := i => if i == c then 1.0 else 0.0;
    for m := c to top
      invariant Reveals(f, c, m, x)
    {
      x := ExtendWitness(f, c, m, x);
    }
  }

  lemma ExtendWitness(f: seq<real>, c: int, m: int, w: Vec) returns (x: Vec)
    requires 0 <= c <= m && Reveals(f, c, m, w)
    ensures Reveals(f, c, m + 1, x)
  {
    var t := -Sum(0, m + 1, LowerTerms(f, m + 1, w));
    x := i => if i == m + 1 then t else w(i);
    forall k | c < k <= m + 1
      ensures Annihilated(f, x, k)
    {
      SumEq(0, k, LowerTerms(f, k, w), LowerTerms(f, k, x));
      if k <= m {
        assert Annihilated(f, w, k);
      }
    }
  }

  /** U'x vanishes beyond c. */
  lemma WitnessAnnihilates(n: int, f: seq<real>, c: int, k: int, x: Vec)
    requires 0 <= c < k < n && Reveals(f, c, n - 1, x)
    ensures Apply(n, Transpose(Upper(f)), x)(k) == 0.0
  {
    var t := RowTimes(Transpose(Upper(f)), k, x);
    assert Annihilated(f, x, k);
    SumSplit(0, k, n, t);
    SumFirst(k, n, t);
    SumZero(k + 1, n, t);
    SumEq(0, k, t, LowerTerms(f, k, x));
  }

  /** What is left of a after the trailing columns are removed. */
  ghost function Residual(a: seq<real>, f: seq<real>, lo: int, n: int): Mat {
    (i, j) => Sym(a)(i, j) - Trailing(f, lo, n)(i, j)
  }

  lemma ResidualAt(n: int, lo: int, a: seq<real>, f: seq<real>, i: int, j: int)
    ensures Residual(a, f, lo, n)(i, j) == (if i <= j then At(a, i, j) else At(a, j, i)) - UduFrom(f, lo, n, i, j)
  {
    var e, t := Sym(a)(i, j), Trailing(f, lo, n)(i, j);
    assert Residual(a, f, lo, n)(i, j) == e - t;
  }

  lemma ResidualVanishes(n: int, c: int, a: seq<real>, f: seq<real>, i: int, j: int)
    requires 0 <= c < n && 0 <= i < n && 0 <= j < n
    requires Factored(n, c + 1, a, f)
    requires i > c || j > c
    ensures Residual(a, f, c + 1, n)(i, j) == 0.0
  {
    UduSymmetric(f, c + 1, n, i, j);
    ResidualAt(n, c + 1, a, f, i, j);
    if i <= j {
      assert At(a, i, j) == UduFrom(f, c + 1, n, i, j);
    } else {
      assert At(a, j, i) == UduFrom(f, c + 1, n, j, i);
    }
  }

  lemma TrailingAnnihilated(n: int, c: int, f: seq<real>, x: Vec, i: int)
    requires 0 <= c < n && Reveals(f, c, n - 1, x)
    ensures Apply(n, Trailing(f, c + 1, n), x)(i) == 0.0
  {
    var s := Apply(n, Transpose(Upper(f)), x);
    ApplyTrailing(n, c + 1, f, x, i);
    var t := RowTimes(Scaled(f, c + 1), i, s);
    forall k | 0 <= k < n
      ensures t(k) == 0.0
    {
      if k > c {
        WitnessAnnihilates(n, f, c, k, x);
      }
    }
    SumZero(0, n, t);
  }

  lemma ResidualRow(n: int, c: int, a: seq<real>, f: seq<real>, x: Vec, i: int)
    requires 0 <= c <= i < n && Reveals(f, c, n - 1, x)
    requires Factored(n, c + 1, a, f)
    ensures Apply(n, Residual(a, f, c + 1, n), x)(i) == if i == c then Pivot(n, c, a, f) else 0.0
  {
    var R := Residual(a, f, c + 1, n);
    forall j | 0 <= j < n && (i > c || j != c)
      ensures RowTimes(R, i, x)(j) == 0.0
    {
      if i > c || j > c {
        ResidualVanishes(n, c, a, f, i, j);
      }
    }
    if i == c {
      SumSingle(0, n, c, RowTimes(R, c, x));
      assert RowTimes(R, c, x)(c) == R(c, c) * 1.0;
      ResidualAt(n, c + 1, a, f, c, c);
    } else {
      SumZero(0, n, RowTimes(R, i, x));
    }
  }

  /** The quadratic form of the matrix takes the pivot of column c as a value, at a vector of norm at least 1. */
  lemma PivotIsAttained(n: int, c: int, a: seq<real>, f: seq<real>) returns (x: Vec)
    requires 0 <= c < n
    requires Factored(n, c + 1, a, f)
    ensures Quad(n, Sym(a), x) == Pivot(n, c, a, f)
    ensures x(c) == 1.0
    ensures Dot(n, x, x) >= 1.0
  {
    x := MakeWitness(f, c, n - 1);
    var R := Residual(a, f, c + 1, n);
    DotSelf(n, x);
    assert x(c) * x(c) == 1.0;
    var y := Apply(n, Sym(a), x);
    forall i | 0 <= i < n && i != c
      ensures Times(x, y)(i) == 0.0
    {
      if i > c {
        SplitRow(n, c, a, f, x, i);
        ResidualRow(n, c, a, f, x, i);
      }
    }
    SplitRow(n, c, a, f, x, c);
    ResidualRow(n, c, a, f, x, c);
    SumSingle(0, n, c, Times(x, y));
  }

  lemma SplitRow(n: int, c: int, a: seq<real>, f: seq<real>, x: Vec, i: int)
    requires 0 <= c < n && Reveals(f, c, n - 1, x)
    ensures Apply(n, Sym(a), x)(i) == Apply(n, Residual(a, f, c + 1, n), x)(i)
  {
    TrailingAnnihilated(n, c, f, x, i);
    ApplySum(n, i, 1.0, Trailing(f, c + 1, n), 1.0, Residual(a, f, c + 1, n), Sym(a), x);
  }

  // ----- bounds on the pivots

  lemma PivotAboveBound(n: int, c: int, a: seq<real>, f: seq<real>, bound: real)
    requires 0 <= c < n && bound >= 0.0
    requires Factored(n, c + 1, a, f)
    requires BoundedBelow(n, Sym(a), bound)
    ensures Pivot(n, c, a, f) >= bound
  {
    var x := PivotIsAttained(n, c, a, f);
    assert Quad(n, Sym(a), x) >= bound * Dot(n, x, x);
    ScaleAtLeast(bound, Dot(n, x, x));
  }

  lemma ScaleAtLeast(a: real, b: real)
    requires a >= 0.0 && b >= 1.0
    ensures a * b >= a
  {
  }

  /** The elimination never bails out on a matrix bounded below by at least the threshold. */
  lemma NeverBailsOut(n: int, c: int, a: seq<real>, f: seq<real>, bound: real)
    requires 0 <= c < n && bound >= THRESHOLD
    requires BoundedBelow(n, Sym(a), bound)
    ensures !FactorFailure(n, c, a, f)
  {
    if FactorFailure(n, c, a, f) {
      PivotAboveBound(n, c, a, f, bound);
      assert false;
    }
  }

  /** Factoring the whole matrix factors every trailing block, with the stored diagonal as pivots. */
  lemma FactoredFrom(n: int, c: int, a: seq<real>, f: seq<real>)
    requires 0 <= c < n && Factored(n, 0, a, f)
    ensures Factored(n, c + 1, a, f)
    ensures Pivot(n, c, a, f) == D(f, c)
  {
    forall i, j | 0 <= i <= j && c + 1 <= j < n
      ensures At(a, i, j) == UduFrom(f, c + 1, n, i, j)
    {
      FromLower(n, c + 1, f, i, j);
    }
    FromLower(n, c, f, c, c);
    SumFirst(c, n, UduTerms(f, c, c));
    ColumnTerm(f, c, c, c);
  }

  lemma EveryPivotAboveBound(n: int, c: int, a: seq<real>, f: seq<real>, bound: real)
    requires 0 <= c < n && bound >= 0.0
    requires FactorSuccess(n, a, f)
    requires BoundedBelow(n, Sym(a), bound)
    ensures D(f, c) >= bound
  {
    FactoredFrom(n, c, a, f);
    PivotAboveBound(n, c, a, f, bound);
  }

  // ----- definiteness is decided by the pivots

  ghost function PivotTerms(n: int, f: seq<real>, x: Vec): Vec {
    k => D(f, k) * (Apply(n, Transpose(Upper(f)), x)(k) * Apply(n, Transpose(Upper(f)), x)(k))
  }

  /** x'(U*D*U')x is the sum of d_k * (U'x)_k^2. */
  lemma QuadOfFactors(n: int, f: seq<real>, x: Vec)
    requires 0 <= n
    ensures Quad(n, Trailing(f, 0, n), x) == Sum(0, n, PivotTerms(n, f, x))
  {
    var s := Apply(n, Transpose(Upper(f)), x);
    forall i | 0 <= i < n
      ensures Apply(n, Trailing(f, 0, n), x)(i) == Apply(n, Scaled(f, 0), s)(i)
    {
      ApplyTrailing(n, 0, f, x, i);
    }
    DotEq(n, x, Apply(n, Trailing(f, 0, n), x), x, Apply(n, Scaled(f, 0), s));
    Adjoint(n, n, Scaled(f, 0), x, s);
    forall k | 0 <= k < n
      ensures Times(Apply(n, Transpose(Scaled(f, 0)), x), s)(k) == PivotTerms(n, f, x)(k)
    {
      PivotTerm(n, f, x, k);
    }
    SumEq(0, n, Times(Apply(n, Transpose(Scaled(f, 0)), x), s), PivotTerms(n, f, x));
  }

  lemma PivotTerm(n: int, f: seq<real>, x: Vec, k: int)
    requires 0 <= k < n
    ensures Apply(n, Transpose(Scaled(f, 0)), x)(k) * Apply(n, Transpose(Upper(f)), x)(k) == PivotTerms(n, f, x)(k)
  {
    var s := Apply(n, Transpose(Upper(f)), x)(k);
    ScaledColumn(n, f, x, k, D(f, k));
    hide D, Upper, Scaled, Apply;
    Associate(D(f, k), s, s);
  }

  lemma ScaledColumn(n: int, f: seq<real>, x: Vec, k: int, d: real)
    requires 0 <= k < n && d == D(f, k)
    ensures Apply(n, Transpose(Scaled(f, 0)), x)(k) == d * Apply(n, Transpose(Upper(f)), x)(k)
  {
    var scaled, plain := RowTimes(Transpose(Scaled(f, 0)), k, x), RowTimes(Transpose(Upper(f)), k, x);
    forall j | 0 <= j < n
      ensures scaled(j) == d * plain(j)
    {
      hide D, U;
      Reorder(U(f, j, k), d, x(j));
    }
    hide D, Scaled, Upper;
    SumScale(0, n, d, plain, scaled);
  }

  lemma Reorder(u: real, d: real, x: real)
    ensures u * d * x == d * (u * x)
  {
  }

  /** U' is injective, because it is unit lower triangular. */
  lemma UpperInjective(n: int, f: seq<real>, x: Vec)
    requires 0 <= n
    requires forall k :: 0 <= k < n ==> Apply(n, Transpose(Upper(f)), x)(k) == 0.0
    ensures !NonZero(n, x)
  {
    for m := 0 to n
      invariant forall i :: 0 <= i < m ==> x(i) == 0.0
    {
      var t := RowTimes(Transpose(Upper(f)), m, x);
      assert Apply(n, Transpose(Upper(f)), x)(m) == 0.0;
      SumSingle(0, n, m, t);
    }
  }

  /** A matrix that udu_factor factors is positive definite exactly when all pivots are positive. */
  lemma PivotsDecideDefiniteness(n: int, a: seq<real>, f: seq<real>)
    requires 0 <= n && FactorSuccess(n, a, f)
    ensures PositiveDefinite(n, Sym(a)) <==> forall k :: 0 <= k < n ==> D(f, k) > 0.0
  {
    if PositiveDefinite(n, Sym(a)) {
      forall c | 0 <= c < n
        ensures D(f, c) > 0.0
      {
        FactoredFrom(n, c, a, f);
        var x := PivotIsAttained(n, c, a, f);
        assert NonZero(n, x);
      }
    }
    if forall k :: 0 <= k < n ==> D(f, k) > 0.0 {
      forall x: Vec | NonZero(n, x)
        ensures Quad(n, Sym(a), x) > 0.0
      {
        QuadOfFactorized(n, a, f, x);
        PositivePivotSum(n, f, x);
      }
    }
  }

  lemma QuadOfFactorized(n: int, a: seq<real>, f: seq<real>, x: Vec)
    requires 0 <= n && Factorization(n, a, f)
    ensures Quad(n, Sym(a), x) == Sum(0, n, PivotTerms(n, f, x))
  {
    forall i | 0 <= i < n
      ensures Apply(n, Sym(a), x)(i) == Apply(n, Trailing(f, 0, n), x)(i)
    {
      assert forall j :: 0 <= j < n ==> UDUt(f, n)(i, j) == Sym(a)(i, j);
      ApplyEq(n, Sym(a), Trailing(f, 0, n), i, x, x);
    }
    DotEq(n, x, Apply(n, Sym(a), x), x, Apply(n, Trailing(f, 0, n), x));
    QuadOfFactors(n, f, x);
  }

  lemma PositivePivotSum(n: int, f: seq<real>, x: Vec)
    requires 0 <= n && NonZero(n, x)
    requires forall k :: 0 <= k < n ==> D(f, k) > 0.0
    ensures Sum(0, n, PivotTerms(n, f, x)) > 0.0
  {
    var s := Apply(n, Transpose(Upper(f)), x);
    forall k | 0 <= k < n
      ensures PivotTerms(n, f, x)(k) >= 0.0
      ensures s(k) != 0.0 ==> PivotTerms(n, f, x)(k) > 0.0
    {
      PositiveTerm(D(f, k), s(k), PivotTerms(n, f, x)(k));
    }
    SumNonNegative(0, n, PivotTerms(n, f, x));
    if forall k :: 0 <= k < n ==> s(k) == 0.0 {
      UpperInjective(n, f, x);
    }
  }

  lemma PositiveTerm(d: real, s: real, q: real)
    requires d > 0.0 && q == d * (s * s)
    ensures q >= 0.0 && (s != 0.0 ==> q > 0.0)
  {
    var t := s * s;
    Square(s, t);
    if s != 0.0 {
      PositiveProduct(d, t, q);
    } else {
      assert t == 0.0;
    }
  }

  // ----- uniqueness

  /** There is only one way to factor a matrix with non-zero pivots. */
  lemma FactorsUnique(n: int, a: seq<real>, f: seq<real>, g: seq<real>)
    requires 0 <= n
    requires FactorSuccess(n, a, f) && FactorSuccess(n, a, g)
    ensures SameColumns(f, g, 0, n)
  {
    TrailingUnique(n, 0, a, f, g);
  }

  /** Nor is there another way to factor a trailing block. */
  lemma TrailingUnique(n: int, lo: int, a: seq<real>, f: seq<real>, g: seq<real>)
    requires 0 <= lo <= n
    requires Factored(n, lo, a, f) && Factored(n, lo, a, g) && PivotsAbove(n, lo, f)
    ensures SameColumns(f, g, lo, n)
  {
    assert forall k :: lo <= k < n ==> D(f, k) != 0.0;
    hide Factored, PivotsAbove, SameColumns, D;
    var c := n;
    SameColumnsNone(f, g, n);
    while c > lo
      invariant lo <= c <= n
      invariant SameColumns(f, g, c, n)
    {
      c := c - 1;
      FactoredLater(n, lo, c, a, f);
      FactoredLater(n, lo, c, a, g);
      SameColumnNext(n, c, a, f, g);
    }
  }

  lemma SameColumnsNone(f: seq<real>, g: seq<real>, n: int)
    ensures SameColumns(f, g, n, n)
  {
  }

  lemma FactoredLater(n: int, lo: int, c: int, a: seq<real>, f: seq<real>)
    requires 0 <= lo <= c <= n && Factored(n, lo, a, f)
    ensures Factored(n, c, a, f)
  {
    forall i, j | 0 <= i <= j && c <= j < n
      ensures At(a, i, j) == UduFrom(f, c, n, i, j)
    {
      FromLower(n, lo, f, i, j);
      FromLower(n, c, f, i, j);
    }
  }

  lemma LastPivot(n: int, c: int, a: seq<real>, f: seq<real>)
    requires 0 <= c < n && Factored(n, c, a, f)
    ensures Pivot(n, c, a, f) == D(f, c)
  {
    SumFirst(c, n, UduTerms(f, c, c));
    ColumnTerm(f, c, c, c);
  }

  /** Equal later columns give the same pivot, and the same quotients by it. */
  lemma SameColumnNext(n: int, c: int, a: seq<real>, f: seq<real>, g: seq<real>)
    requires 0 <= c < n && Factored(n, c, a, f) && Factored(n, c, a, g) && SameColumns(f, g, c + 1, n)
    requires D(f, c) != 0.0
    ensures SameColumns(f, g, c, n)
  {
    LastPivot(n, c, a, f);
    LastPivot(n, c, a, g);
    SameProducts(n, c + 1, f, g, c, c);
    hide Factored, UduFrom;
    forall i | 0 <= i < c
      ensures At(f, i, c) == At(g, i, c)
    {
      var v := At(a, i, c) - UduFrom(f, c + 1, n, i, c);
      SameProducts(n, c + 1, f, g, i, c);
      EntryAbovePivot(n, i, c, a, f, v);
      EntryAbovePivot(n, i, c, a, g, v);
      CancelFactor(At(f, i, c), At(g, i, c), D(f, c), D(g, c), v);
    }
  }

  lemma EntryAbovePivot(n: int, i: int, c: int, a: seq<real>, f: seq<real>, v: real)
    requires 0 <= i < c < n && Factored(n, c, a, f) && v == At(a, i, c) - UduFrom(f, c + 1, n, i, c)
    ensures At(f, i, c) * D(f, c) == v
  {
    SumFirst(c, n, UduTerms(f, i, c));
    ColumnTerm(f, i, c, c);
  }

  /** f holds factors U and D of the matrix with every pivot at least 1e-7 in absolute value. */
  ghost predicate HasFactors(n: int, A: Mat, f: seq<real>) {
    && (forall i, j :: 0 <= i < n && 0 <= j < n ==> UDUt(f, n)(i, j) == A(i, j))
    && forall k :: 0 <= k < n ==> D(f, k) <= -0.0000001 || D(f, k) >= 0.0000001
  }

  lemma SuccessHasFactors(n: int, a: seq<real>, f: seq<real>)
    requires FactorSuccess(n, a, f)
    ensures HasFactors(n, Sym(a), f)
  {
  }

  /** The factorization fails only where there are no such factors. */
  lemma FailureHasNone(n: int, c: int, a: seq<real>, f: seq<real>, g: seq<real>)
    requires 0 <= c < n && FactorFailure(n, c, a, f)
    ensures !HasFactors(n, Sym(a), g)
  {
    if HasFactors(n, Sym(a), g) {
      assert forall i, j :: 0 <= i <= j < n ==> At(a, i, j) == Sym(a)(i, j) == UDUt(g, n)(i, j);
      assert Factored(n, 0, a, g);
      FactoredLater(n, 0, c, a, g);
      FactoredLater(n, 0, c + 1, a, g);
      TrailingUnique(n, c + 1, a, f, g);
      SameProducts(n, c + 1, f, g, c, c);
      LastPivot(n, c, a, g);
      assert false;
    }
  }

  lemma CancelFactor(x: real, y: real, d: real, e: real, v: real)
    requires x * d == v && y * e == v && d == e && d != 0.0
    ensures x == y
  {
  }
}

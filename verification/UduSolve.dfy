// Solving with a packed factorization: the three in-place sweeps of udu_solve and the two
// drivers LinearSystemV and LinearSystemM of utils/udu.c.
module UduSolve {
  import opened LinearAlgebra
  import opened Sums
  import opened Udu

  /** The unit upper triangular factor as a matrix. */
  ghost function Upper(f: seq<real>): Mat {
    (i, k) => U(f, i, k)
  }

  ghost function UpperTerms(f: seq<real>, q: int, x: Vec): Vec {
    k => At(f, q, k) * x(k)
  }

  ghost function LowerTerms(f: seq<real>, q: int, x: Vec): Vec {
    k => At(f, k, q) * x(k)
  }

  // ----- first sweep: U z = b

  /** Row q of U*z, for a unit upper triangular U. */
  ghost predicate BackSolved(n: int, f: seq<real>, b: seq<real>, z: seq<real>, q: int) {
    AsVec(b)(q) == AsVec(z)(q) + Sum(q + 1, n, UpperTerms(f, q, AsVec(z)))
  }

  lemma BackSolvedRow(n: int, f: seq<real>, b: seq<real>, z: seq<real>, q: int)
    requires 0 <= q < n
    requires BackSolved(n, f, b, z, q)
    ensures AsVec(b)(q) == Apply(n, Upper(f), AsVec(z))(q)
  {
    var t := RowTimes(Upper(f), q, AsVec(z));
    SumSplit(0, q, n, t);
    SumZero(0, q, t);
    SumFirst(q, n, t);
    SumEq(q + 1, n, t, UpperTerms(f, q, AsVec(z)));
  }

  /** One step of the first sweep. */
  method SubtractUpper(n: nat, r: nat, k: nat, udu: array<real>, b: array<real>)
    requires r < k < n <= b.Length && Tri(n) <= udu.Length && udu != b
    modifies b
    ensures b[r] == old(b[r]) - UpperTerms(udu[..], r, AsVec(old(b[..])))(k)
    ensures forall q :: 0 <= q < b.Length && q != r ==> b[q] == old(b[q])
  {
    var ki := k * (k + 1) / 2;
    TriFormula(k);
    InRange(n, r, k);
    assert udu[ki + r] == At(udu[..], r, k);
    b[r] := b[r] - udu[ki + r] * b[k];
  }

  method BackSubstituteRow(n: nat, r: nat, udu: array<real>, b: array<real>)
    requires r < n <= b.Length && Tri(n) <= udu.Length && udu != b
    modifies b
    ensures BackSolved(n, udu[..], old(b[..]), b[..], r)
    ensures forall q :: 0 <= q < b.Length && q != r ==> b[q] == old(b[q])
  {
    hide At, Tri;
    ghost var b0, f := b[..], udu[..];
    for k := r + 1 to n
      invariant forall q :: 0 <= q < b.Length && q != r ==> b[q] == b0[q]
      invariant b[r] == b0[r] - Sum(r + 1, k, UpperTerms(f, r, AsVec(b0)))
    {
      assert UpperTerms(f, r, AsVec(b[..]))(k) == UpperTerms(f, r, AsVec(b0))(k);
      SubtractUpper(n, r, k, udu, b);
    }
    SumEq(r + 1, n, UpperTerms(f, r, AsVec(b0)), UpperTerms(f, r, AsVec(b[..])));
  }

  lemma BackSolvedKept(n: int, f: seq<real>, b: seq<real>, z: seq<real>, z': seq<real>, r: int, q: int)
    requires 0 <= r < q < n <= |b| == |z| == |z'|
    requires forall k :: 0 <= k < |z| && k != r ==> z[k] == z'[k]
    requires BackSolved(n, f, b, z, q)
    ensures BackSolved(n, f, b, z', q)
  {
    SumEq(q + 1, n, UpperTerms(f, q, AsVec(z)), UpperTerms(f, q, AsVec(z')));
  }

  method BackSubstitute(n: nat, udu: array<real>, b: array<real>)
    requires n <= b.Length && Tri(n) <= udu.Length && udu != b
    modifies b
    ensures Solves(n, Upper(udu[..]), AsVec(b[..]), AsVec(old(b[..])))
    ensures forall q :: n <= q < b.Length ==> b[q] == old(b[q])
  {
    ghost var b0, f := b[..], udu[..];
    var r := n - 1;
    while r > 0
      invariant n > 0 ==> 0 <= r < n
      invariant forall q :: 0 <= q < b.Length && (q < r || n <= q) ==> b[q] == b0[q]
      invariant n > 0 ==> b[r] == b0[r] || r < n - 1
      invariant forall q :: 0 <= r <= q < n ==> BackSolved(n, f, b0, b[..], q)
    {
      r := r - 1;
      ghost var z := b[..];
      BackSubstituteRow(n, r, udu, b);
      forall q | r <= q < n
        ensures BackSolved(n, f, b0, b[..], q)
      {
        if q > r {
          BackSolvedKept(n, f, b0, z, b[..], r, q);
        } else {
          assert BackSolved(n, f, z, b[..], r);
        }
      }
    }
    forall q | 0 <= q < n
      ensures Apply(n, Upper(f), AsVec(b[..]))(q) == AsVec(b0)(q)
    {
      BackSolvedRow(n, f, b0, b[..], q);
    }
  }

  // ----- second sweep: D y = z

  ghost predicate DiagonalAt(f: seq<real>, y: Vec, z: Vec, r: int) {
    D(f, r) * y(r) == z(r)
  }

  ghost predicate SolvesDiagonal(n: int, f: seq<real>, y: Vec, z: Vec) {
    forall r :: 0 <= r < n ==> DiagonalAt(f, y, z, r)
  }

  lemma DiagonalKept(f: seq<real>, y: seq<real>, y': seq<real>, z: Vec, q: int)
    requires DiagonalAt(f, AsVec(y), z, q)
    requires |y| == |y'| && 0 <= q < |y| && y[q] == y'[q]
    ensures DiagonalAt(f, AsVec(y'), z, q)
  {
  }

  method ScaleByDiagonal(n: nat, udu: array<real>, b: array<real>)
    requires n <= b.Length && Tri(n) <= udu.Length && udu != b
    requires forall r :: 0 <= r < n ==> D(udu[..], r) != 0.0
    modifies b
    ensures SolvesDiagonal(n, udu[..], AsVec(b[..]), AsVec(old(b[..])))
    ensures forall q :: n <= q < b.Length ==> b[q] == old(b[q])
  {
    ghost var b0, f := b[..], udu[..];
    for r := 0 to n
      invariant forall q :: 0 <= q < r ==> DiagonalAt(f, AsVec(b[..]), AsVec(b0), q)
      invariant forall q :: r <= q < b.Length ==> b[q] == b0[q]
    {
      var ri := r * (r + 1) / 2;
      TriFormula(r);
      InRange(n, r, r);
      assert udu[ri + r] == D(f, r);
      hide D, At, Ix, Tri;
      ghost var w := b[..];
      b[r] := b[r] / udu[ri + r];
      QuotientTimes(D(f, r), b0[r], b[r]);
      forall q | 0 <= q <= r
        ensures DiagonalAt(f, AsVec(b[..]), AsVec(b0), q)
      {
        if q < r {
          hide DiagonalAt;
          DiagonalKept(f, w, b[..], AsVec(b0), q);
        }
      }
    }
  }

  lemma QuotientTimes(d: real, z: real, y: real)
    requires d != 0.0 && y == z / d
    ensures d * y == z
  {
  }

  // ----- third sweep: U' x = y

  /** Row r of U'*x, for a unit upper triangular U. */
  ghost predicate ForwardSolved(f: seq<real>, y: seq<real>, x: seq<real>, r: int) {
    AsVec(y)(r) == AsVec(x)(r) + Sum(0, r, LowerTerms(f, r, AsVec(x)))
  }

  lemma ForwardSolvedRow(n: int, f: seq<real>, y: seq<real>, x: seq<real>, r: int)
    requires 0 <= r < n
    requires ForwardSolved(f, y, x, r)
    ensures AsVec(y)(r) == Apply(n, Transpose(Upper(f)), AsVec(x))(r)
  {
    var t := RowTimes(Transpose(Upper(f)), r, AsVec(x));
    SumSplit(0, r, n, t);
    SumFirst(r, n, t);
    SumZero(r + 1, n, t);
    SumEq(0, r, t, LowerTerms(f, r, AsVec(x)));
  }

  /** One step of the third sweep. */
  method SubtractLower(n: nat, r: nat, k: nat, udu: array<real>, b: array<real>)
    requires k < r < n <= b.Length && Tri(n) <= udu.Length && udu != b
    modifies b
    ensures b[r] == old(b[r]) - LowerTerms(udu[..], r, AsVec(old(b[..])))(k)
    ensures forall q :: 0 <= q < b.Length && q != r ==> b[q] == old(b[q])
  {
    var ri := r * (r + 1) / 2;
    TriFormula(r);
    InRange(n, k, r);
    assert udu[ri + k] == At(udu[..], k, r);
    b[r] := b[r] - udu[ri + k] * b[k];
  }

  method ForwardSubstituteRow(n: nat, r: nat, udu: array<real>, b: array<real>)
    requires r < n <= b.Length && Tri(n) <= udu.Length && udu != b
    modifies b
    ensures ForwardSolved(udu[..], old(b[..]), b[..], r)
    ensures forall q :: 0 <= q < b.Length && q != r ==> b[q] == old(b[q])
  {
    hide At, Tri;
    ghost var b0, f := b[..], udu[..];
    for k := 0 to r
      invariant forall q :: 0 <= q < b.Length && q != r ==> b[q] == b0[q]
      invariant b[r] == b0[r] - Sum(0, k, LowerTerms(f, r, AsVec(b0)))
    {
      assert LowerTerms(f, r, AsVec(b[..]))(k) == LowerTerms(f, r, AsVec(b0))(k);
      SubtractLower(n, r, k, udu, b);
    }
    SumEq(0, r, LowerTerms(f, r, AsVec(b0)), LowerTerms(f, r, AsVec(b[..])));
  }

  lemma ForwardSolvedKept(f: seq<real>, y: seq<real>, x: seq<real>, x': seq<real>, r: int, q: int)
    requires 0 <= q < r < |x| == |x'|
    requires forall k :: 0 <= k < |x| && k != r ==> x[k] == x'[k]
    requires ForwardSolved(f, y, x, q)
    ensures ForwardSolved(f, y, x', q)
  {
    SumEq(0, q, LowerTerms(f, q, AsVec(x)), LowerTerms(f, q, AsVec(x')));
  }

  method ForwardSubstitute(n: nat, udu: array<real>, b: array<real>)
    requires n <= b.Length && Tri(n) <= udu.Length && udu != b
    modifies b
    ensures Solves(n, Transpose(Upper(udu[..])), AsVec(b[..]), AsVec(old(b[..])))
    ensures forall q :: n <= q < b.Length ==> b[q] == old(b[q])
  {
    ghost var b0, f := b[..], udu[..];
    assert n > 0 ==> ForwardSolved(f, b0, b[..], 0);
    var r := 1;
    while r < n
      invariant 1 <= r && (n > 0 ==> r <= n)
      invariant forall q :: 0 <= q < b.Length && (r <= q || n <= q) ==> b[q] == b0[q]
      invariant forall q :: 0 <= q < r && q < n ==> ForwardSolved(f, b0, b[..], q)
      decreases n - r
    {
      ghost var x := b[..];
      ForwardSubstituteRow(n, r, udu, b);
      forall q | 0 <= q <= r
        ensures ForwardSolved(f, b0, b[..], q)
      {
        if q < r {
          ForwardSolvedKept(f, b0, x, b[..], r, q);
        } else {
          assert ForwardSolved(f, x, b[..], r);
        }
      }
      r := r + 1;
    }
    forall q | 0 <= q < n
      ensures Apply(n, Transpose(Upper(f)), AsVec(b[..]))(q) == AsVec(b0)(q)
    {
      ForwardSolvedRow(n, f, b0, b[..], q);
    }
  }

  // ----- the whole solve

  /** U*D, with the columns before lo left out. */
  ghost function Scaled(f: seq<real>, lo: int): Mat {
    (i, k) => if k < lo then 0.0 else U(f, i, k) * D(f, k)
  }

  /** U*D*U' over the columns from lo on, as a matrix. */
  ghost function Trailing(f: seq<real>, lo: int, n: int): Mat {
    (i, j) => UduFrom(f, lo, n, i, j)
  }

  lemma TrailingIsProduct(n: int, lo: int, f: seq<real>, i: int, j: int)
    requires 0 <= lo <= n
    ensures Trailing(f, lo, n)(i, j) == Product(n, Scaled(f, lo), Transpose(Upper(f)))(i, j)
  {
    var t := ProdTerms(Scaled(f, lo), Transpose(Upper(f)), i, j);
    SumSplit(0, lo, n, t);
    SumZero(0, lo, t);
    SumEq(lo, n, t, UduTerms(f, i, j));
  }

  /** (U*D*U')*x is obtained by going through U', then U*D. */
  lemma ApplyTrailing(n: int, lo: int, f: seq<real>, x: Vec, i: int)
    requires 0 <= lo <= n
    ensures Apply(n, Trailing(f, lo, n), x)(i) == Apply(n, Scaled(f, lo), Apply(n, Transpose(Upper(f)), x))(i)
  {
    forall j | 0 <= j < n
      ensures Trailing(f, lo, n)(i, j) == Product(n, Scaled(f, lo), Transpose(Upper(f)))(i, j)
    {
      TrailingIsProduct(n, lo, f, i, j);
    }
    ApplyEq(n, Trailing(f, lo, n), Product(n, Scaled(f, lo), Transpose(Upper(f))), i, x, x);
    ApplyProduct(n, n, Scaled(f, lo), Transpose(Upper(f)), x, i);
  }

  lemma SweepsCompose(n: int, f: seq<real>, b: Vec, z: Vec, y: Vec, x: Vec)
    requires 0 <= n
    requires Solves(n, Upper(f), z, b) && SolvesDiagonal(n, f, y, z) && Solves(n, Transpose(Upper(f)), x, y)
    ensures Solves(n, UDUt(f, n), x, b)
  {
    var s := Apply(n, Transpose(Upper(f)), x);
    forall i | 0 <= i < n
      ensures Apply(n, UDUt(f, n), x)(i) == b(i)
    {
      ApplyEq(n, UDUt(f, n), Trailing(f, 0, n), i, x, x);
      ApplyTrailing(n, 0, f, x, i);
      forall k | 0 <= k < n
        ensures RowTimes(Scaled(f, 0), i, s)(k) == RowTimes(Upper(f), i, z)(k)
      {
        assert s(k) == y(k) && DiagonalAt(f, y, z, k);
        Regroup(U(f, i, k), D(f, k), s(k), z(k));
      }
      SumEq(0, n, RowTimes(Scaled(f, 0), i, s), RowTimes(Upper(f), i, z));
    }
  }

  lemma Regroup(u: real, d: real, y: real, z: real)
    requires d * y == z
    ensures u * d * y == u * z
  {
  }

  method Solve(n: nat, udu: array<real>, b: array<real>)
    requires n <= b.Length && Tri(n) <= udu.Length && udu != b
    requires forall r :: 0 <= r < n ==> D(udu[..], r) != 0.0
    modifies b
    ensures Solves(n, UDUt(udu[..], n), AsVec(b[..]), AsVec(old(b[..])))
    ensures forall q :: n <= q < b.Length ==> b[q] == old(b[q])
  {
    ghost var f, b0 := udu[..], b[..];
    BackSubstitute(n, udu, b);
    ghost var z := b[..];
    ScaleByDiagonal(n, udu, b);
    ghost var y := b[..];
    ForwardSubstitute(n, udu, b);
    SweepsCompose(n, f, AsVec(b0), AsVec(z), AsVec(y), AsVec(b[..]));
  }
}

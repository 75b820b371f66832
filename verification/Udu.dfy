// The packed U D U' solver of utils/udu.c: a symmetric matrix, stored column by column as an
// upper triangle, is factored in place and then solved by three in-place sweeps.
module Udu {
  import opened Sums

  const THRESHOLD: real := 0.0000001

  // ----- packed storage

  /** The number of packed entries before column c. */
  ghost function Tri(c: int): int
    decreases c
  {
    if c <= 0 then 0 else Tri(c - 1) + c
  }

  /** The column index computed by the program is Tri. */
  lemma TriFormula(c: int)
    requires 0 <= c
    ensures c * (c + 1) / 2 == Tri(c)
    decreases c
  {
  }

  /** Position of entry (r, c), r <= c, in the packed array. */
  ghost function Ix(r: int, c: int): int {
    Tri(c) + r
  }

  lemma InRange(n: int, r: int, c: int)
    requires 0 <= r <= c < n
    ensures 0 <= Ix(r, c) < Tri(n)
    decreases n
  {
    if c < n - 1 {
      InRange(n - 1, r, c);
    } else if c > 0 {
      InRange(n - 1, 0, c - 1);
    }
  }

  lemma IxInjective(r: int, c: int, r': int, c': int)
    requires 0 <= r <= c && 0 <= r' <= c'
    requires Ix(r, c) == Ix(r', c')
    ensures r == r' && c == c'
  {
    if c < c' {
      InRange(c', r, c);
    } else if c' < c {
      InRange(c, r', c');
    }
  }

  /** Entry (r, c) of the packed array v, and 0 outside the stored triangle. */
  ghost function At(v: seq<real>, r: int, c: int): real {
    if 0 <= r <= c && 0 <= Ix(r, c) < |v| then v[Ix(r, c)] else 0.0
  }

  lemma AtUpdate(n: int, v: seq<real>, r: int, c: int, x: real)
    requires 0 <= r <= c < n && Tri(n) <= |v|
    ensures 0 <= Ix(r, c) < |v|
    ensures At(v[Ix(r, c) := x], r, c) == x
    ensures forall i, j :: 0 <= i <= j && (i != r || j != c)
                           ==> At(v[Ix(r, c) := x], i, j) == At(v, i, j)
  {
    InRange(n, r, c);
    forall i, j | 0 <= i <= j && (i != r || j != c)
      ensures At(v[Ix(r, c) := x], i, j) == At(v, i, j)
    {
      if Ix(i, j) == Ix(r, c) {
        IxInjective(i, j, r, c);
      }
    }
  }

  /** The symmetric matrix whose upper triangle is packed in v. */
  ghost function Sym(v: seq<real>): Mat {
    (i, j) => if i <= j then At(v, i, j) else At(v, j, i)
  }

  // ----- what a packed factorization means

  /** The unit upper triangular factor. */
  ghost function U(v: seq<real>, i: int, k: int): real {
    if i == k then 1.0 else if i < k then At(v, i, k) else 0.0
  }

  /** The diagonal factor. */
  ghost function D(v: seq<real>, k: int): real {
    At(v, k, k)
  }

  /** The terms of entry (i, j) of U*D*U'. */
  ghost function UduTerms(v: seq<real>, i: int, j: int): Vec {
    k => U(v, i, k) * D(v, k) * U(v, j, k)
  }

  /** Entry (i, j) of U*D*U' restricted to the columns lo..n-1 of U. */
  ghost function UduFrom(v: seq<real>, lo: int, n: int, i: int, j: int): real {
    Sum(lo, n, UduTerms(v, i, j))
  }

  /** The whole product U*D*U'. */
  ghost function UDUt(v: seq<real>, n: int): Mat {
    (i, j) => UduFrom(v, 0, n, i, j)
  }

  /** Columns lo..n-1 of a are exactly reproduced by columns lo..n-1 of the factors in f. */
  ghost predicate Factored(n: int, lo: int, a: seq<real>, f: seq<real>) {
    forall r, c :: 0 <= r <= c && lo <= c < n ==> At(a, r, c) == UduFrom(f, lo, n, r, c)
  }

  ghost predicate SameColumns(a: seq<real>, f: seq<real>, lo: int, hi: int) {
    forall r, c :: 0 <= r <= c && lo <= c < hi ==> At(a, r, c) == At(f, r, c)
  }

  /** The pivot that elimination meets at column c: what is left of a_cc once columns c+1..n-1 are removed. */
  ghost function Pivot(n: int, c: int, a: seq<real>, f: seq<real>): real {
    At(a, c, c) - UduFrom(f, c + 1, n, c, c)
  }

  ghost function Abs(x: real): real {
    if x < 0.0 then -x else x
  }

  /** Entry (q, c) of h is entry (q, c) of g, eliminated and divided by the pivot. */
  ghost predicate Reduced(n: int, c: int, g: seq<real>, h: seq<real>, q: int) {
    At(h, q, c) * At(h, c, c) == At(g, q, c) - UduFrom(g, c + 1, n, q, c)
  }

  /** h differs from g at most in rows lo..c-1 of column c. */
  ghost predicate ChangesAbove(c: int, lo: int, g: seq<real>, h: seq<real>) {
    forall i, j :: 0 <= i <= j && (j != c || i == c || i < lo) ==> At(h, i, j) == At(g, i, j)
  }

  /** h differs from g at most in entry (r, c). */
  ghost predicate ChangesOnly(r: int, c: int, g: seq<real>, h: seq<real>) {
    forall i, j :: 0 <= i <= j && (i != r || j != c) ==> At(h, i, j) == At(g, i, j)
  }

  // ----- factorization

  /** One step of the inner loops: entry (r, c) loses u_rk * d_k * u_ck. */
  method SubtractProduct(n: nat, r: nat, c: nat, k: nat, udu: array<real>)
    requires r <= c < k < n && Tri(n) <= udu.Length
    modifies udu
    ensures At(udu[..], r, c) == old(At(udu[..], r, c)) - UduTerms(old(udu[..]), r, c)(k)
    ensures ChangesOnly(r, c, old(udu[..]), udu[..])
  {
    ghost var w := udu[..];
    var ci, ki := c * (c + 1) / 2, k * (k + 1) / 2;
    PackedEntries(n, r, c, k, ci, ki, w);
    hide UduTerms, At, Ix, Tri;
    ghost var x := Remainder(w[ci + r], w[ki + r], w[ki + k], w[ki + c]);
    SubtractAt(udu, ci + r, ki + r, ki + k, ki + c);
    AtUpdate(n, w, r, c, x);
  }

  function Remainder(x: real, a: real, d: real, b: real): real {
    x - a * d * b
  }

  method SubtractAt(udu: array<real>, i: nat, a: nat, d: nat, b: nat)
    requires i < udu.Length && a < udu.Length && d < udu.Length && b < udu.Length
    modifies udu
    ensures udu[..] == old(udu[..])[i := Remainder(old(udu[i]), old(udu[a]), old(udu[d]), old(udu[b]))]
  {
    udu[i] := udu[i] - udu[a] * udu[d] * udu[b];
  }

  /** Where the code finds the entries that one step of the inner loops uses. */
  lemma PackedEntries(n: int, r: int, c: int, k: int, ci: int, ki: int, w: seq<real>)
    requires 0 <= r <= c < k < n && Tri(n) <= |w| && ci == c * (c + 1) / 2 && ki == k * (k + 1) / 2
    ensures 0 <= ci + r == Ix(r, c) < |w| && 0 <= ki + r < |w| && 0 <= ki + c < |w| && 0 <= ki + k < |w|
    ensures w[ci + r] == At(w, r, c)
    ensures Remainder(w[ci + r], w[ki + r], w[ki + k], w[ki + c]) == At(w, r, c) - UduTerms(w, r, c)(k)
  {
    hide At, Tri, Remainder;
    PackedEntry(n, r, c, ci, w);
    PackedEntry(n, r, k, ki, w);
    PackedEntry(n, c, k, ki, w);
    PackedEntry(n, k, k, ki, w);
    hide Ix;
    ProductTerm(w, r, c, k, w[ki + r], w[ki + k], w[ki + c]);
  }

  lemma PackedEntry(n: int, r: int, c: int, ci: int, w: seq<real>)
    requires 0 <= r <= c < n && Tri(n) <= |w| && ci == c * (c + 1) / 2
    ensures 0 <= ci + r == Ix(r, c) < |w| && w[ci + r] == At(w, r, c)
  {
    TriFormula(c);
    InRange(n, r, c);
  }

  lemma ProductTerm(w: seq<real>, r: int, c: int, k: int, a: real, d: real, b: real)
    requires r < k && c < k && a == At(w, r, k) && d == At(w, k, k) && b == At(w, c, k)
    ensures Remainder(At(w, r, c), a, d, b) == At(w, r, c) - UduTerms(w, r, c)(k)
  {
  }

  /** The update of entry (r, c) by all columns to the right of c. */
  method Eliminate(n: nat, r: nat, c: nat, udu: array<real>)
    requires r <= c < n && Tri(n) <= udu.Length
    modifies udu
    ensures At(udu[..], r, c) == old(At(udu[..], r, c)) - UduFrom(old(udu[..]), c + 1, n, r, c)
    ensures ChangesOnly(r, c, old(udu[..]), udu[..])
  {
    ghost var f := udu[..];
    for k := c + 1 to n
      invariant At(udu[..], r, c) == At(f, r, c) - Sum(c + 1, k, UduTerms(f, r, c))
      invariant ChangesOnly(r, c, f, udu[..])
    {
      assert UduTerms(f, r, c)(k) == UduTerms(udu[..], r, c)(k);
      SubtractProduct(n, r, c, k, udu);
    }
  }

  lemma SameTerm(f: seq<real>, g: seq<real>, lo: int, n: int, i: int, j: int, k: int)
    requires 0 <= lo <= k < n && SameColumns(f, g, lo, n)
    ensures UduTerms(g, i, j)(k) == UduTerms(f, i, j)(k)
  {
  }

  /** U*D*U' over columns lo..n-1 reads only those columns. */
  lemma SameProducts(n: int, lo: int, f: seq<real>, g: seq<real>, i: int, j: int)
    requires 0 <= lo && SameColumns(f, g, lo, n)
    ensures UduFrom(f, lo, n, i, j) == UduFrom(g, lo, n, i, j)
  {
    forall k | lo <= k < n
      ensures UduTerms(g, i, j)(k) == UduTerms(f, i, j)(k)
    {
      SameTerm(f, g, lo, n, i, j, k);
    }
    SumEq(lo, n, UduTerms(g, i, j), UduTerms(f, i, j));
  }

  /** Moving one more exactly eliminated column into the factored block. */
  lemma ExtendFactored(n: int, c: int, a: seq<real>, f: seq<real>, g: seq<real>)
    requires 0 <= c < n
    requires Factored(n, c + 1, a, f)
    requires SameColumns(f, g, c + 1, n)
    requires At(g, c, c) == Pivot(n, c, a, f)
    requires forall r :: 0 <= r < c ==> At(g, r, c) * At(g, c, c) == At(a, r, c) - UduFrom(f, c + 1, n, r, c)
    ensures Factored(n, c, a, g)
  {
    forall i, j | 0 <= i <= j && c <= j < n
      ensures At(a, i, j) == UduFrom(g, c, n, i, j)
    {
      SumFirst(c, n, UduTerms(g, i, j));
      SameProducts(n, c + 1, f, g, i, j);
      ColumnTerm(g, i, j, c);
    }
  }

  /** What column c contributes to entry (i, j), c <= j. */
  lemma ColumnTerm(g: seq<real>, i: int, j: int, c: int)
    requires i <= j && c <= j
    ensures c < j ==> UduTerms(g, i, j)(c) == 0.0
    ensures c == i == j ==> UduTerms(g, i, j)(c) == At(g, c, c)
    ensures i < c == j ==> UduTerms(g, i, j)(c) == At(g, i, c) * At(g, c, c)
  {
  }

  /** The whole product has the same entries as its columns from lo on, for the entries of those columns. */
  lemma FromLower(n: int, lo: int, f: seq<real>, i: int, j: int)
    requires 0 <= lo <= j && lo <= n
    ensures UDUt(f, n)(i, j) == UduFrom(f, lo, n, i, j)
  {
    SumSplit(0, lo, n, UduTerms(f, i, j));
    SumZero(0, lo, UduTerms(f, i, j));
  }

  lemma UduSymmetric(f: seq<real>, lo: int, n: int, i: int, j: int)
    ensures UduFrom(f, lo, n, i, j) == UduFrom(f, lo, n, j, i)
  {
    SumEq(lo, n, UduTerms(f, i, j), UduTerms(f, j, i));
  }

  /** A complete factorization: the packed factors multiply back to the symmetric matrix. */
  ghost predicate Factorization(n: int, a: seq<real>, f: seq<real>) {
    forall i, j :: 0 <= i < n && 0 <= j < n ==> UDUt(f, n)(i, j) == Sym(a)(i, j)
  }

  lemma FactoredIsFactorization(n: int, a: seq<real>, f: seq<real>)
    requires Factored(n, 0, a, f)
    ensures Factorization(n, a, f)
  {
    forall i, j | 0 <= i < n && 0 <= j < n
      ensures UDUt(f, n)(i, j) == Sym(a)(i, j)
    {
      UduSymmetric(f, 0, n, i, j);
    }
  }

  /** The pivots of columns lo..n-1 reach the threshold in absolute value. */
  ghost predicate PivotsAbove(n: int, lo: int, f: seq<real>) {
    forall k :: lo <= k < n ==> Abs(D(f, k)) >= THRESHOLD
  }

  /** Success: U*D*U' is the original symmetric matrix, and no pivot is below the threshold. */
  ghost predicate FactorSuccess(n: int, a: seq<real>, f: seq<real>) {
    && Factored(n, 0, a, f)
    && Factorization(n, a, f)
    && PivotsAbove(n, 0, f)
  }

  /** Failure at column c: the columns to its right are factored, the columns to its left and the
      rest of column c are untouched, and entry (c, c) holds the first pivot below the threshold. */
  ghost predicate FactorFailure(n: int, c: int, a: seq<real>, f: seq<real>) {
    && Factored(n, c + 1, a, f)
    && PivotsAbove(n, c + 1, f)
    && SameColumns(a, f, 0, c)
    && (forall r :: 0 <= r < c ==> At(f, r, c) == At(a, r, c))
    && At(f, c, c) == Pivot(n, c, a, f)
    && Abs(At(f, c, c)) < THRESHOLD
  }

  method UduFactor(n: nat, udu: array<real>) returns (code: int)
    requires Tri(n) <= udu.Length
    modifies udu
    ensures code == 0 ==> FactorSuccess(n, old(udu[..]), udu[..])
    ensures code == 0 ==> forall k :: 0 <= k < n ==> D(udu[..], k) <= -0.0000001 || D(udu[..], k) >= 0.0000001
    ensures code != 0 ==> -(n as int) <= code <= -1 && FactorFailure(n, -code - 1, old(udu[..]), udu[..])
    ensures code != 0 ==> -0.0000001 < D(udu[..], -code - 1) < 0.0000001
  {
    ghost var a := udu[..];
    var c := n;
    while c > 0
      invariant 0 <= c <= n
      invariant Factored(n, c, a, udu[..])
      invariant SameColumns(a, udu[..], 0, c)
      invariant PivotsAbove(n, c, udu[..])
    {
      c := c - 1;
      ghost var f := udu[..];
      var ci := c * (c + 1) / 2;
      TriFormula(c);
      InRange(n, c, c);
      Eliminate(n, c, c, udu);
      ghost var g := udu[..];
      assert udu[ci + c] == At(g, c, c) == Pivot(n, c, a, f);
      if -THRESHOLD < udu[ci + c] < THRESHOLD {
        ColumnFailed(n, c, a, f, g);
        return -(c + 1);
      }
      ReduceColumn(n, c, udu);
      hide Factored, SameColumns, Reduced, ChangesAbove, ChangesOnly, Pivot;
      ColumnDone(n, c, a, f, g, udu[..]);
    }
    FactoredIsFactorization(n, a, udu[..]);
    return 0;
  }

  lemma ColumnFailed(n: int, c: int, a: seq<real>, f: seq<real>, g: seq<real>)
    requires 0 <= c < n
    requires Factored(n, c + 1, a, f) && PivotsAbove(n, c + 1, f)
    requires SameColumns(a, f, 0, c + 1) && ChangesOnly(c, c, f, g)
    requires At(g, c, c) == Pivot(n, c, a, f) && Abs(At(g, c, c)) < THRESHOLD
    ensures FactorFailure(n, c, a, g)
  {
    assert SameColumns(f, g, c + 1, n);
    FactoredTransfers(n, c + 1, a, f, g);
    SameProducts(n, c + 1, f, g, c, c);
    forall k | c + 1 <= k < n
      ensures Abs(D(g, k)) >= THRESHOLD
    {
      assert D(g, k) == D(f, k);
    }
  }

  lemma ColumnDone(n: int, c: int, a: seq<real>, f: seq<real>, g: seq<real>, h: seq<real>)
    requires 0 <= c < n
    requires Factored(n, c + 1, a, f)
    requires SameColumns(a, f, 0, c + 1)
    requires ChangesOnly(c, c, f, g) && ChangesAbove(c, 0, g, h)
    requires At(g, c, c) == Pivot(n, c, a, f)
    requires forall q :: 0 <= q < c ==> Reduced(n, c, g, h, q)
    ensures Factored(n, c, a, h)
    ensures SameColumns(a, h, 0, c)
    ensures PivotsAbove(n, c + 1, f) && Abs(At(g, c, c)) >= THRESHOLD ==> PivotsAbove(n, c, h)
  {
    assert forall k :: c < k ==> D(h, k) == D(f, k);
    assert D(h, c) == At(g, c, c);
    assert SameColumns(f, g, c + 1, n);
    forall r | 0 <= r < c
      ensures At(h, r, c) * At(h, c, c) == At(a, r, c) - UduFrom(f, c + 1, n, r, c)
    {
      assert Reduced(n, c, g, h, r);
      SameProducts(n, c + 1, f, g, r, c);
    }
    forall i, j | 0 <= i <= j && c + 1 <= j < n
      ensures At(f, i, j) == At(h, i, j)
    {
      assert At(f, i, j) == At(g, i, j);
    }
    ExtendFactored(n, c, a, f, h);
  }

  lemma FactoredTransfers(n: int, lo: int, a: seq<real>, f: seq<real>, g: seq<real>)
    requires 0 <= lo && Factored(n, lo, a, f) && SameColumns(f, g, lo, n)
    ensures Factored(n, lo, a, g)
  {
    forall i, j | 0 <= i <= j && lo <= j < n
      ensures At(a, i, j) == UduFrom(g, lo, n, i, j)
    {
      SameProducts(n, lo, f, g, i, j);
    }
  }

  /** The division of an eliminated entry by the pivot of its column. */
  method DivideByPivot(n: nat, r: nat, c: nat, udu: array<real>)
    requires r < c < n && Tri(n) <= udu.Length
    requires At(udu[..], c, c) != 0.0
    modifies udu
    ensures At(udu[..], r, c) * At(udu[..], c, c) == old(At(udu[..], r, c))
    ensures ChangesOnly(r, c, old(udu[..]), udu[..])
  {
    ghost var w := udu[..];
    var ci := c * (c + 1) / 2;
    TriFormula(c);
    InRange(n, r, c);
    InRange(n, c, c);
    assert w[ci + r] == At(w, r, c) && w[ci + c] == At(w, c, c);
    var x := udu[ci + r] / udu[ci + c];
    udu[ci + r] := x;
    assert udu[..] == w[Ix(r, c) := x];
    AtUpdate(n, w, r, c, x);
  }

  lemma ReduceStep(n: int, c: int, r: int, g: seq<real>, w: seq<real>, w1: seq<real>, h: seq<real>)
    requires 0 <= r < c < n
    requires ChangesAbove(c, r + 1, g, w)
    requires forall q :: r < q < c ==> Reduced(n, c, g, w, q)
    requires ChangesOnly(r, c, w, w1) && ChangesOnly(r, c, w1, h)
    requires At(w1, r, c) == At(w, r, c) - UduFrom(w, c + 1, n, r, c)
    requires At(h, r, c) * At(h, c, c) == At(w1, r, c)
    ensures ChangesAbove(c, r, g, h)
    ensures forall q :: r <= q < c ==> Reduced(n, c, g, h, q)
  {
    assert SameColumns(g, w, c + 1, n);
    SameProducts(n, c + 1, g, w, r, c);
    assert At(h, c, c) == At(w1, c, c) == At(w, c, c);
    assert Reduced(n, c, g, h, r);
    forall q | r < q < c
      ensures Reduced(n, c, g, h, q)
    {
      assert Reduced(n, c, g, w, q);
      assert At(h, q, c) == At(w1, q, c) == At(w, q, c);
    }
    forall i, j | 0 <= i <= j && (j != c || i == c || i < r)
      ensures At(h, i, j) == At(g, i, j)
    {
      assert At(h, i, j) == At(w1, i, j) == At(w, i, j);
    }
  }

  /** Eliminates and scales the entries above the pivot of column c, from the bottom up. */
  method ReduceColumn(n: nat, c: nat, udu: array<real>)
    requires c < n && Tri(n) <= udu.Length
    requires At(udu[..], c, c) != 0.0
    modifies udu
    ensures forall q :: 0 <= q < c ==> Reduced(n, c, old(udu[..]), udu[..], q)
    ensures ChangesAbove(c, 0, old(udu[..]), udu[..])
  {
    ghost var g := udu[..];
    var r := c;
    while r > 0
      invariant 0 <= r <= c
      invariant forall q :: r <= q < c ==> Reduced(n, c, g, udu[..], q)
      invariant ChangesAbove(c, r, g, udu[..])
    {
      r := r - 1;
      ghost var w := udu[..];
      Eliminate(n, r, c, udu);
      ghost var w1 := udu[..];
      assert At(w1, c, c) == At(w, c, c) == At(g, c, c);
      DivideByPivot(n, r, c, udu);
      ReduceStep(n, c, r, g, w, w1, udu[..]);
    }
  }
}

// GPC_PredictionFunction of utils/GPC.c on two-dimensional arrays: block by block, each block row
// computed from the one below it.
module Predictor {
  import opened LinearAlgebra
  import opened Sums
  import opened MatrixLibrary
  import opened BlockMatrices
  import opened PredictionTheory
  import opened PredictionMatrices

  /** The entries of the array are those of F. */
  ghost predicate Is(a: array2<real>, F: Mat)
    reads a
  {
    forall i, j :: 0 <= i < a.Length0 && 0 <= j < a.Length1 ==> a[i, j] == F(i, j)
  }

  // ----- moving blocks

  method ExtractBlock(X: array2<real>, sub: array2<real>, ghost h: nat, ghost w: nat, ghost rows: nat,
                      ghost columns: nat, ghost rb: nat, ghost cb: nat, row: nat, column: nat, ghost F: Mat)
    requires X != sub && sub.Length0 == h && sub.Length1 == w
    requires X.Length0 == h * rows && X.Length1 == w * columns && rb < rows && cb < columns
    requires row == h * rb && column == w * cb
    requires IsBlock(MatOf(X), h, w, rb, cb, F)
    modifies sub
    ensures Is(sub, F)
  {
    BlockFits(h, rows, rb);
    BlockFits(w, columns, cb);
    ghost var Y := MatOf(X);
    SubMatrixExtract(X, sub, row, column);
    forall i, j | 0 <= i < h && 0 <= j < w
      ensures sub[i, j] == F(i, j)
    {
      assert BlockEntry(Y, h, w, rb, cb, F, i, j);
    }
  }

  method InsertBlock(X: array2<real>, sub: array2<real>, ghost h: nat, ghost w: nat, ghost rows: nat,
                     ghost columns: nat, ghost rb: nat, ghost cb: nat, row: nat, column: nat, ghost F: Mat)
    requires X != sub && sub.Length0 == h && sub.Length1 == w
    requires X.Length0 == h * rows && X.Length1 == w * columns && rb < rows && cb < columns
    requires row == h * rb && column == w * cb
    requires Is(sub, F)
    modifies X
    ensures BlockStored(old(MatOf(X)), MatOf(X), h, w, rows, columns, rb, cb, F)
  {
    BlockFits(h, rows, rb);
    BlockFits(w, columns, cb);
    ghost var X0 := MatOf(X);
    SubMatrixInsert(X, sub, row, column);
    forall r, c | 0 <= r < h && 0 <= c < w
      ensures BlockEntry(MatOf(X), h, w, rb, cb, F, r, c)
    {
      BlkRange(h, rows, rb, r);
      BlkRange(w, columns, cb, c);
      assert X[row + r, column + c] == sub[r, c];
    }
  }

  /** r = a*b, in terms of what a and b hold. */
  method ProductOf(a: array2<real>, b: array2<real>, r: array2<real>, ghost F: Mat, ghost G: Mat)
    requires a.Length1 == b.Length0 && r.Length0 == a.Length0 && r.Length1 == b.Length1 && r != a && r != b
    requires Is(a, F) && Is(b, G)
    modifies r
    ensures Is(r, Product(a.Length1, F, G))
  {
    MatrixProd(a, b, r);
    forall i, j | 0 <= i < r.Length0 && 0 <= j < r.Length1
      ensures r[i, j] == Product(a.Length1, F, G)(i, j)
    {
      SumEq(0, a.Length1, ProdTerms(MatOf(a), MatOf(b), i, j), ProdTerms(F, G, i, j));
    }
  }

  /** r = a + b, in terms of what a and b hold. */
  method SumOf(a: array2<real>, b: array2<real>, r: array2<real>, ghost F: Mat, ghost G: Mat)
    requires a.Length0 == b.Length0 == r.Length0 && a.Length1 == b.Length1 == r.Length1
    requires Is(a, F) && Is(b, G)
    modifies r
    ensures Is(r, Plus(F, G))
  {
    ghost var a0, b0 := MatOf(a), MatOf(b);
    MatrixSum(a, b, r, 1.0);
    forall i, j | 0 <= i < r.Length0 && 0 <= j < r.Length1
      ensures r[i, j] == Plus(F, G)(i, j)
    {
      assert SumAt(a0, 1.0, b0, MatOf(r), i, j);
    }
  }

  // ----- one block of one channel

  /** The blocks that precede (i, j) in the order of computation are in place. */
  ghost predicate FilledTo(M: Model, ch: Channel, s: int, X: Mat, i: int, j: int) {
    forall i', j' :: 0 <= i' < s && 0 <= j' < Count(M, ch) && (i' < i || (i' == i && j' < j)) ==>
      IsBlock(X, M.p, Width(M, ch), s - 1 - i', j', Block(M, ch, i', j'))
  }

  lemma FillOne(M: Model, ch: Channel, s: int, X: Mat, X': Mat, i: int, j: int)
    requires 0 <= i < s && 0 <= j < Count(M, ch)
    requires FilledTo(M, ch, s, X, i, j)
    requires BlockStored(X, X', M.p, Width(M, ch), s, Count(M, ch), s - 1 - i, j, Block(M, ch, i, j))
    ensures FilledTo(M, ch, s, X', i, j + 1)
  {
    hide Block, IsBlock, BlockStored;
    StoredBlock(X, X', M.p, Width(M, ch), s, Count(M, ch), s - 1 - i, j, Block(M, ch, i, j));
    forall i', j' | 0 <= i' < s && 0 <= j' < Count(M, ch) && (i' < i || (i' == i && j' < j + 1))
      ensures IsBlock(X', M.p, Width(M, ch), s - 1 - i', j', Block(M, ch, i', j'))
    {
      if i' != i || j' != j {
        OtherBlockKept(X, X', M.p, Width(M, ch), s, Count(M, ch), s - 1 - i, j, Block(M, ch, i, j),
          s - 1 - i', j', Block(M, ch, i', j'));
      }
    }
  }

  lemma CoefficientEntries(M: Model, ch: Channel, j: int, column: int)
    requires column == Offset(M, ch) + Width(M, ch) * j
    ensures forall r, c :: Coefficient(M, ch, j)(r, c) == M.theta(r, column + c)
  {
  }

  /** The first row of blocks is read off theta. */
  method FirstBlock(ghost M: Model, ghost ch: Channel, s: nat, theta: array2<real>, X: array2<real>,
                    h: nat, w: nat, offset: nat, j: nat)
    requires h == M.p && w == Width(M, ch) && j < Count(M, ch) && s >= 1 && offset == Offset(M, ch)
    requires X.Length0 == h * s && X.Length1 == w * Count(M, ch)
    requires theta.Length0 == h && offset + w * Count(M, ch) <= theta.Length1 && theta != X
    requires M.theta == MatOf(theta)
    modifies X
    ensures BlockStored(old(MatOf(X)), MatOf(X), h, w, s, Count(M, ch), s - 1, j, Block(M, ch, 0, j))
  {
    hide BlockStored, Count;
    BlockFits(w, Count(M, ch), j);
    var tmp := new real[h, w];
    var column := offset + w * j;
    CoefficientEntries(M, ch, j, column);
    hide Width, Offset, Coefficient;
    SubMatrixExtract(theta, tmp, 0, column);
    assert Is(tmp, Coefficient(M, ch, j));
    InsertBlock(X, tmp, h, w, s, Count(M, ch), s - 1, j, h * (s - 1), w * j, Coefficient(M, ch, j));
  }

  /** Block (i, j): A_(i-1,0) * X_(0,j) + X_(i-1,j+1), without the second term in the last column. */
  method ComputeBlock(A: array2<real>, X: array2<real>, h: nat, w: nat, s: nat, ghost na: nat, count: nat, i: nat,
                      j: nat, ghost F: Mat, ghost G: Mat, ghost N: Mat) returns (tmp: array2<real>)
    requires j < count && 1 <= i < s && na >= 1
    requires A.Length0 == h * s && A.Length1 == h * na
    requires X.Length0 == h * s && X.Length1 == w * count
    requires IsBlock(MatOf(A), h, h, s - i, 0, F)
    requires IsBlock(MatOf(X), h, w, s - 1, j, G)
    requires if j < count - 1 then IsBlock(MatOf(X), h, w, s - i, j + 1, N) else N == Zero()
    ensures fresh(tmp) && tmp.Length0 == h && tmp.Length1 == w && Is(tmp, Plus(Product(h, F, G), N))
  {
    hide IsBlock, Is, Product, Plus, MatOf, Zero;
    var tmp1, tmp2 := new real[h, h], new real[h, w];
    var tmp4 := new real[h, w];
    var below, first, left := h * (s - i), h * (s - 1), w * j;
    ExtractBlock(A, tmp1, h, h, s, na, s - i, 0, below, h * 0, F);
    ExtractBlock(X, tmp2, h, w, s, count, s - 1, j, first, left, G);
    ProductOf(tmp1, tmp2, tmp4, F, G);
    if j < count - 1 {
      var tmp3 := new real[h, w];
      var right := w * (j + 1);
      ExtractBlock(X, tmp3, h, w, s, count, s - i, j + 1, below, right, N);
      SumOf(tmp4, tmp3, tmp2, Product(h, F, G), N);
      tmp := tmp2;
    } else {
      PlusZero(tmp4, Product(h, F, G));
      tmp := tmp4;
    }
  }

  method NextBlock(ghost M: Model, ghost ch: Channel, s: nat, A: array2<real>, X: array2<real>,
                   h: nat, w: nat, count: nat, i: nat, j: nat)
    requires h == M.p && w == Width(M, ch) && count == Count(M, ch) && j < count && 1 <= i < s && M.na >= 1
    requires A.Length0 == h * s && A.Length1 == h * M.na
    requires X.Length0 == h * s && X.Length1 == w * count
    requires IsBlock(MatOf(A), h, h, s - i, 0, Block(M, Output, i - 1, 0))
    requires IsBlock(MatOf(X), h, w, s - 1, j, Block(M, ch, 0, j))
    requires j < count - 1 ==> IsBlock(MatOf(X), h, w, s - i, j + 1, Block(M, ch, i - 1, j + 1))
    modifies X
    ensures BlockStored(old(MatOf(X)), MatOf(X), h, w, s, count, s - 1 - i, j, Block(M, ch, i, j))
  {
    ghost var F, G, N := Block(M, Output, i - 1, 0), Block(M, ch, 0, j), Next(M, ch, i - 1, j);
    assert Block(M, ch, i, j) == Plus(Product(h, F, G), N);
    hide Block, IsBlock, BlockStored, Is, Product, Plus, MatOf;
    var tmp := ComputeBlock(A, X, h, w, s, M.na, count, i, j, F, G, N);
    var here, left := h * (s - i - 1), w * j;
    InsertBlock(X, tmp, h, w, s, count, s - i - 1, j, here, left, Plus(Product(h, F, G), N));
  }

  lemma PlusZero(a: array2<real>, F: Mat)
    requires Is(a, F)
    ensures Is(a, Plus(F, Zero()))
  {
  }

  /** One row of blocks of a channel. */
  method FillRow(ghost M: Model, ghost ch: Channel, s: nat, theta: array2<real>, A: array2<real>, X: array2<real>,
                 h: nat, w: nat, count: nat, offset: nat, i: nat)
    requires h == M.p && w == Width(M, ch) && count == Count(M, ch) && offset == Offset(M, ch) && i < s && M.na >= 1
    requires A.Length0 == h * s && A.Length1 == h * M.na
    requires X.Length0 == h * s && X.Length1 == w * count
    requires theta.Length0 == h && offset + w * count <= theta.Length1 && theta != X
    requires M.theta == MatOf(theta)
    requires A == X <==> ch == Output
    requires FilledTo(M, Output, s, MatOf(A), i, 0) && FilledTo(M, ch, s, MatOf(X), i, 0)
    modifies X
    ensures FilledTo(M, ch, s, MatOf(X), i + 1, 0)
  {
    for j := 0 to count
      invariant FilledTo(M, ch, s, MatOf(X), i, j)
      invariant A != X ==> MatOf(A) == old(MatOf(A))
    {
      ghost var X0 := MatOf(X);
      if i == 0 {
        FirstBlock(M, ch, s, theta, X, h, w, offset, j);
      } else {
        assert FilledTo(M, Output, s, MatOf(A), i, 0);
        NextBlock(M, ch, s, A, X, h, w, count, i, j);
      }
      FillOne(M, ch, s, X0, MatOf(X), i, j);
    }
  }

  // ----- the response to the planned inputs

  /** Blocks on the first i block diagonals hold the responses, everything else above the diagonal is still
      free and everything below it is zero; j blocks of diagonal i are already stored. */
  ghost predicate DiagonalsTo(M: Model, s: int, C: Mat, i: int, j: int) {
    forall rb, cb :: 0 <= rb < s && 0 <= cb < s && (cb - rb < i || (cb - rb == i && rb < j)) ==>
      MarkovBlock(M, C, rb, cb)
  }

  lemma DiagonalOne(M: Model, s: int, C: Mat, C': Mat, i: int, j: int)
    requires 0 <= i && 0 <= j < s - i
    requires DiagonalsTo(M, s, C, i, j)
    requires BlockStored(C, C', M.p, M.m, s, s, j, j + i, Markov(M, i))
    ensures DiagonalsTo(M, s, C', i, j + 1)
  {
    hide Markov, IsBlock, BlockStored;
    forall rb, cb | 0 <= rb < s && 0 <= cb < s && (cb - rb < i || (cb - rb == i && rb < j + 1))
      ensures MarkovBlock(M, C', rb, cb)
    {
      if rb != j || cb != j + i {
        assert MarkovBlock(M, C, rb, cb);
        OtherBlockKept(C, C', M.p, M.m, s, s, j, j + i, Markov(M, i), rb, cb, Markov(M, cb - rb));
      } else {
        StoredBlock(C, C', M.p, M.m, s, s, j, j + i, Markov(M, i));
      }
    }
  }

  lemma StoredBlock(X: Mat, X': Mat, h: int, w: int, rows: int, columns: int, rb: int, cb: int, F: Mat)
    requires BlockStored(X, X', h, w, rows, columns, rb, cb, F)
    ensures IsBlock(X', h, w, rb, cb, F)
  {
  }

  /** The response to the input given i steps earlier. */
  method Response(ghost M: Model, s: nat, theta: array2<real>, A: array2<real>, B: array2<real>, C: array2<real>,
                  h: nat, m: nat, na: nat, simplyProper: nat, i: nat) returns (tmp: array2<real>)
    requires h == M.p && m == M.m && na == M.na && simplyProper == M.direct && i < s && M.na >= 1 && M.nb >= 1
    requires A.Length0 == B.Length0 == C.Length0 == h * s
    requires A.Length1 == h * M.na && B.Length1 == m * M.nb && C.Length1 == m * s
    requires theta.Length0 == h && h * M.na + M.direct * m <= theta.Length1
    requires M.theta == MatOf(theta)
    requires FilledTo(M, Output, s, MatOf(A), i + 1, 0) && FilledTo(M, Input, s, MatOf(B), i + 1, 0)
    requires i >= 1 ==> MarkovBlock(M, MatOf(C), 0, 0)
    ensures fresh(tmp) && tmp.Length0 == h && tmp.Length1 == m && Is(tmp, Markov(M, i))
  {
    tmp := new real[h, m];
    if i == 0 {
      if simplyProper == 1 {
        SubMatrixExtract(theta, tmp, 0, h * na);
      } else {
        MatrixEye(tmp, 0.0);
      }
    } else {
      ghost var F, G, N := Block(M, Output, i - 1, 0), Markov(M, 0), Block(M, Input, i - 1, 0);
      assert Markov(M, i) == Plus(Product(h, F, G), N);
      assert IsBlock(MatOf(A), h, h, s - i, 0, F) && IsBlock(MatOf(B), h, m, s - i, 0, N);
      hide *;
      LaterResponse(s, M.na, M.nb, A, B, C, h, m, i, F, G, N, tmp);
    }
  }

  /** The response at i >= 1 from the blocks stored for i - 1: the product of F and G, plus N. */
  method LaterResponse(s: nat, ghost na: nat, ghost nb: nat, A: array2<real>, B: array2<real>, C: array2<real>,
                       h: nat, m: nat, i: nat, ghost F: Mat, ghost G: Mat, ghost N: Mat, tmp: array2<real>)
    requires 1 <= i < s && na >= 1 && nb >= 1
    requires A.Length0 == B.Length0 == C.Length0 == h * s
    requires A.Length1 == h * na && B.Length1 == m * nb && C.Length1 == m * s
    requires IsBlock(MatOf(A), h, h, s - i, 0, F) && IsBlock(MatOf(B), h, m, s - i, 0, N)
    requires IsBlock(MatOf(C), h, m, 0, 0, G)
    requires tmp.Length0 == h && tmp.Length1 == m && tmp != A && tmp != B && tmp != C
    modifies tmp
    ensures Is(tmp, Plus(Product(h, F, G), N))
  {
    hide IsBlock, Is, Product, Plus, MatOf;
    assert h * 0 == 0 && m * 0 == 0;
    var tmp1, tmp2 := new real[h, h], new real[h, m];
    var tmp3, tmp4 := new real[h, m], new real[h, m];
    ExtractBlock(A, tmp1, h, h, s, na, s - i, 0, h * (s - i), 0, F);
    ExtractBlock(C, tmp2, h, m, s, s, 0, 0, 0, 0, G);
    ExtractBlock(B, tmp3, h, m, s, nb, s - i, 0, h * (s - i), 0, N);
    ProductOf(tmp1, tmp2, tmp4, F, G);
    SumOf(tmp4, tmp3, tmp, Product(h, F, G), N);
  }

  /** The response goes on the whole block diagonal i of C. */
  method FillDiagonal(ghost M: Model, s: nat, C: array2<real>, tmp: array2<real>, h: nat, m: nat, i: nat)
    requires h == M.p && m == M.m && i < s
    requires C.Length0 == h * s && C.Length1 == m * s && tmp.Length0 == h && tmp.Length1 == m && tmp != C
    requires Is(tmp, Markov(M, i))
    requires DiagonalsTo(M, s, MatOf(C), i, 0)
    modifies C
    ensures DiagonalsTo(M, s, MatOf(C), i + 1, 0)
  {
    for j := 0 to s - i
      invariant DiagonalsTo(M, s, MatOf(C), i, j)
    {
      hide Markov, DiagonalsTo, BlockStored;
      ghost var C0 := MatOf(C);
      assert m * (j + i) == j * m + i * m;
      InsertBlock(C, tmp, h, m, s, s, j, j + i, j * h, j * m + i * m, Markov(M, i));
      DiagonalOne(M, s, C0, MatOf(C), i, j);
    }
  }

  /** Everything below the block diagonal of C is zero, as it is in fresh storage. */
  ghost predicate ZeroBelow(s: int, h: int, m: int, C: Mat) {
    forall rb, cb :: 0 <= cb < rb < s ==> IsBlock(C, h, m, rb, cb, Zero())
  }

  /** GPC_PredictionFunction without its last part. */
  method Predict(ghost M: Model, theta: array2<real>, A: array2<real>, B: array2<real>, C: array2<real>,
                 D: array2<real>, na: nat, nb: nat, nc: nat, p: nat, m: nat, s: nat, simplyProper: nat)
    requires M == Model(na, nb, nc, p, m, simplyProper, MatOf(theta))
    requires na >= 1 && nb >= 1
    requires A.Length0 == B.Length0 == C.Length0 == D.Length0 == p * s
    requires A.Length1 == p * na && B.Length1 == m * nb && C.Length1 == m * s && D.Length1 == p * nc
    requires theta.Length0 == p && p * na + simplyProper * m + m * nb + p * nc <= theta.Length1
    requires A != B && A != C && A != D && B != C && B != D && C != D
    requires theta != A && theta != B && theta != C && theta != D
    requires ZeroBelow(s, p, m, MatOf(C))
    modifies A, B, C, D
    ensures PredictsWith(M, s, MatOf(A), MatOf(B), MatOf(C), MatOf(D))
    ensures ZeroBelow(s, p, m, MatOf(C))
  {
    ghost var T := MatOf(theta);
    assert DiagonalsTo(M, s, MatOf(C), 0, 0) by {
      NothingYet(M, s, MatOf(C));
    }
    for i := 0 to s
      invariant MatOf(theta) == T
      invariant FilledTo(M, Output, s, MatOf(A), i, 0) && FilledTo(M, Input, s, MatOf(B), i, 0)
      invariant FilledTo(M, Noise, s, MatOf(D), i, 0)
      invariant DiagonalsTo(M, s, MatOf(C), i, 0)
    {
      assert i >= 1 ==> MarkovBlock(M, MatOf(C), 0, 0);
      hide FilledTo, DiagonalsTo, Markov, Block, MarkovBlock;
      FillRow(M, Output, s, theta, A, A, p, p, na, 0, i);
      FillRow(M, Input, s, theta, A, B, p, m, nb, p * na + simplyProper * m, i);
      FillRow(M, Noise, s, theta, A, D, p, p, nc, p * na + simplyProper * m + m * nb, i);
      var tmp := Response(M, s, theta, A, B, C, p, m, na, simplyProper, i);
      FillDiagonal(M, s, C, tmp, p, m, i);
    }
    AllThere(M, s, MatOf(A), MatOf(B), MatOf(C), MatOf(D));
  }

  lemma NothingYet(M: Model, s: int, C: Mat)
    requires ZeroBelow(s, M.p, M.m, C)
    ensures DiagonalsTo(M, s, C, 0, 0)
  {
  }

  lemma AllThere(M: Model, s: int, A: Mat, B: Mat, C: Mat, D: Mat)
    requires FilledTo(M, Output, s, A, s, 0) && FilledTo(M, Input, s, B, s, 0) && FilledTo(M, Noise, s, D, s, 0)
    requires DiagonalsTo(M, s, C, s, 0)
    ensures PredictsWith(M, s, A, B, C, D)
    ensures ZeroBelow(s, M.p, M.m, C)
  {
    hide Block;
    assert HoldsMarkov(M, s, C);
    forall rb, cb | 0 <= cb < rb < s
      ensures IsBlock(C, M.p, M.m, rb, cb, Zero())
    {
      assert MarkovBlock(M, C, rb, cb) && Markov(M, cb - rb) == Zero();
    }
  }
}

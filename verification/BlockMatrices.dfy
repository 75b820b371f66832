// Matrices and vectors divided into equal blocks, addressed by flat indices.
module BlockMatrices {
  import opened LinearAlgebra
  import opened Sums

  /** Flat index of component c of block j, for blocks of width w. */
  ghost function Blk(w: int, j: int, c: int): int {
    w * j + c
  }

  lemma BlkRange(w: int, n: int, j: int, c: int)
    requires 0 <= j < n && 0 <= c < w
    ensures 0 <= w * j <= Blk(w, j, c) < w * j + w <= w * n
  {
    assert w * n == w * j + w + w * (n - j - 1);
    assert w * (n - j - 1) >= 0;
    assert w * j >= 0;
  }

  /** An index inside the range of block j belongs to no other block. */
  lemma BlkInjective(w: int, j: int, c: int, j': int)
    requires 0 <= c < w
    requires w * j' <= Blk(w, j, c) < w * j' + w
    ensures j == j'
  {
    if j < j' {
      Ahead(w, j, j');
    } else if j' < j {
      Ahead(w, j', j);
    }
  }

  lemma Ahead(w: int, j: int, j': int)
    requires w >= 0 && j < j'
    ensures w * j' >= w * j + w
  {
    assert w * j' == w * j + w + w * (j' - j - 1);
    assert w * (j' - j - 1) >= 0;
  }

  /** A whole block lies inside n of them. */
  lemma BlockFits(w: nat, n: nat, j: nat)
    requires j < n
    ensures 0 <= w * j && w * j + w <= w * n
  {
    if w > 0 {
      BlkRange(w, n, j, 0);
    }
  }

  /** Block (rb, cb) of X, of size h by w, is F. */
  ghost predicate IsBlock(X: Mat, h: int, w: int, rb: int, cb: int, F: Mat) {
    forall r, c :: 0 <= r < h && 0 <= c < w ==> BlockEntry(X, h, w, rb, cb, F, r, c)
  }

  ghost predicate BlockEntry(X: Mat, h: int, w: int, rb: int, cb: int, F: Mat, r: int, c: int) {
    X(Blk(h, rb, r), Blk(w, cb, c)) == F(r, c)
  }

  /** Block j of a vector. */
  ghost function SubVector(x: Vec, w: int, j: int): Vec {
    c => x(Blk(w, j, c))
  }

  ghost function BlockSums(w: int, f: Vec): Vec {
    j => Sum(0, w, SubVector(f, w, j))
  }

  lemma LastBlock(w: nat, n: nat, f: Vec)
    requires n > 0
    ensures Sum(w * (n - 1), w * (n - 1) + w, f) == Sum(0, w, SubVector(f, w, n - 1))
  {
    var d, g := w * (n - 1), SubVector(f, w, n - 1);
    forall k | 0 <= k < w
      ensures g(k) == f(k + d)
    {
      assert Blk(w, n - 1, k) == k + d;
    }
    SumShift(0, w, d, f, g);
  }

  /** A sum over w*n terms, block by block. */
  lemma SumByBlocks(w: nat, n: nat, f: Vec)
    ensures Sum(0, w * n, f) == Sum(0, n, BlockSums(w, f))
    decreases n
  {
    if n > 0 {
      SumByBlocks(w, n - 1, f);
      assert w * n == w * (n - 1) + w;
      assert w * (n - 1) >= 0;
      SumSplit(0, w * (n - 1), w * n, f);
      LastBlock(w, n, f);
    } else {
      assert w * n == 0;
    }
  }

  ghost function BlockProducts(w: int, F: int -> Mat, x: Vec, r: int): Vec {
    j => Apply(w, F(j), SubVector(x, w, j))(r)
  }

  /** Row r of block row rb of X*x, as a sum over blocks. */
  lemma ApplyByBlocks(h: int, w: nat, n: nat, X: Mat, x: Vec, rb: int, r: int, F: int -> Mat)
    requires 0 <= r < h
    requires forall j :: 0 <= j < n ==> IsBlock(X, h, w, rb, j, F(j))
    ensures Apply(w * n, X, x)(Blk(h, rb, r)) == Sum(0, n, BlockProducts(w, F, x, r))
  {
    var t := RowTimes(X, Blk(h, rb, r), x);
    SumByBlocks(w, n, t);
    forall j | 0 <= j < n
      ensures BlockSums(w, t)(j) == BlockProducts(w, F, x, r)(j)
    {
      var u, v := SubVector(t, w, j), RowTimes(F(j), r, SubVector(x, w, j));
      forall c | 0 <= c < w
        ensures u(c) == v(c)
      {
        assert IsBlock(X, h, w, rb, j, F(j)) && BlockEntry(X, h, w, rb, j, F(j), r, c);
      }
      SumEq(0, w, u, v);
    }
    SumEq(0, n, BlockSums(w, t), BlockProducts(w, F, x, r));
  }

  /** X' differs from X at most inside block (rb, cb), which it sets to F. */
  ghost predicate BlockStored(X: Mat, X': Mat, h: int, w: int, rows: int, columns: int, rb: int, cb: int, F: Mat) {
    && IsBlock(X', h, w, rb, cb, F)
    && forall r', c' ::
      (0 <= r' < h * rows && 0 <= c' < w * columns && !(h * rb <= r' < h * rb + h && w * cb <= c' < w * cb + w)) ==>
        X'(r', c') == X(r', c')
  }

  /** Storing one block leaves every other block as it was. */
  lemma OtherBlockKept(X: Mat, X': Mat, h: int, w: int, rows: int, columns: int, rb: int, cb: int, F: Mat,
                       rb': int, cb': int, G: Mat)
    requires BlockStored(X, X', h, w, rows, columns, rb, cb, F)
    requires 0 <= rb' < rows && 0 <= cb' < columns && (rb' != rb || cb' != cb)
    requires IsBlock(X, h, w, rb', cb', G)
    ensures IsBlock(X', h, w, rb', cb', G)
  {
    forall r, c | 0 <= r < h && 0 <= c < w
      ensures BlockEntry(X', h, w, rb', cb', G, r, c)
    {
      assert BlockEntry(X, h, w, rb', cb', G, r, c);
      BlkRange(h, rows, rb', r);
      BlkRange(w, columns, cb', c);
      var i, j := Blk(h, rb', r), Blk(w, cb', c);
      if h * rb <= i < h * rb + h && w * cb <= j < w * cb + w {
        BlkInjective(h, rb', r, rb);
        BlkInjective(w, cb', c, cb);
      }
      assert X'(i, j) == X(i, j);
    }
  }

  /** Two functions with the same entries describe the same block. */
  lemma BlockOfEqual(X: Mat, h: int, w: int, rb: int, cb: int, F: Mat, G: Mat)
    requires IsBlock(X, h, w, rb, cb, F)
    requires forall r, c :: 0 <= r < h && 0 <= c < w ==> F(r, c) == G(r, c)
    ensures IsBlock(X, h, w, rb, cb, G)
  {
    forall r, c | 0 <= r < h && 0 <= c < w
      ensures BlockEntry(X, h, w, rb, cb, G, r, c)
    {
      assert BlockEntry(X, h, w, rb, cb, F, r, c);
    }
  }
}

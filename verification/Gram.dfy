// The accumulation loops of GPC_Control (off = 0) and GPC_Control2 (off = 1) of utils/GPC.c.
module Gram {
  import opened LinearAlgebra
  import opened Sums
  import opened MatrixLibrary
  import opened BlockMatrices
  import opened GramTheory
  import opened Predictor

  /** The block of the first block row of C that starts at column `column`. */
  method CopyFirstRow(C: array2<real>, tmp: array2<real>, p: nat, m: nat, ghost y: nat, column: nat, ghost F: Mat)
    requires tmp.Length0 == p && tmp.Length1 == m && tmp != C
    requires p <= C.Length0 && column == m * y && column + m <= C.Length1
    requires IsBlock(MatOf(C), p, m, 0, y, F)
    modifies tmp
    ensures Is(tmp, F)
  {
    FirstRowEntries(MatOf(C), p, m, y, column, F);
    hide IsBlock, MatOf;
    for r := 0 to p
      invariant forall i, j :: 0 <= i < r && 0 <= j < m ==> tmp[i, j] == C[i, j + column]
    {
      for c := 0 to m
        invariant forall i, j :: 0 <= i < r && 0 <= j < m ==> tmp[i, j] == C[i, j + column]
        invariant forall j :: 0 <= j < c ==> tmp[r, j] == C[r, j + column]
      {
        tmp[r, c] := C[r, c + column];
      }
    }
  }

  lemma FirstRowEntries(X: Mat, p: nat, m: nat, y: nat, column: nat, F: Mat)
    requires column == m * y && IsBlock(X, p, m, 0, y, F)
    ensures forall r, c :: 0 <= r < p && 0 <= c < m ==> X(r, c + column) == F(r, c)
  {
    assert p * 0 == 0;
    forall r, c | 0 <= r < p && 0 <= c < m
      ensures X(r, c + column) == F(r, c)
    {
      assert BlockEntry(X, p, m, 0, y, F, r, c);
    }
  }

  /** Block (x, y) of G receives E, all other blocks stay. */
  ghost predicate BlockAdded(m: int, n: int, x: int, y: int, E: Mat, G: Mat, G': Mat) {
    forall x', y', r, c :: 0 <= x' < n && 0 <= y' < n && 0 <= r < m && 0 <= c < m ==>
      BlockAddedAt(m, x, y, E, G, G', x', y', r, c)
  }

  ghost predicate BlockAddedAt(m: int, x: int, y: int, E: Mat, G: Mat, G': Mat, x': int, y': int, r: int, c: int) {
    EntryAdded(m, if x' == x && y' == y then E(r, c) else 0.0, G, G', x', y', r, c)
  }

  ghost predicate EntryAdded(m: int, e: real, G: Mat, G': Mat, x: int, y: int, r: int, c: int) {
    G'(Blk(m, x, r), Blk(m, y, c)) == G(Blk(m, x, r), Blk(m, y, c)) + e
  }

  method AddBlock(G: array2<real>, mm: array2<real>, m: nat, ghost n: nat, ghost x: nat, ghost y: nat,
                  row: nat, column: nat, ghost E: Mat)
    requires G.Length0 == G.Length1 == m * n && mm.Length0 == mm.Length1 == m && G != mm
    requires x < n && y < n && row == m * x && column == m * y
    requires Is(mm, E)
    modifies G
    ensures BlockAdded(m, n, x, y, E, old(MatOf(G)), MatOf(G))
  {
    ghost var G0 := MatOf(G);
    BlockFits(m, n, x);
    BlockFits(m, n, y);
    hide BlockAdded;
    AddEntries(G, mm, row, column);
    AddedBlock(m, n, x, y, row, column, E, G0, MatOf(G));
  }

  /** The two innermost loops. */
  method AddEntries(G: array2<real>, mm: array2<real>, row: nat, column: nat)
    requires row + mm.Length0 <= G.Length0 && column + mm.Length1 <= G.Length1 && G != mm
    modifies G
    ensures forall i, j :: 0 <= i < G.Length0 && 0 <= j < G.Length1 ==>
      G[i, j] == if row <= i < row + mm.Length0 && column <= j < column + mm.Length1
                 then old(G[i, j]) + mm[i - row, j - column] else old(G[i, j])
  {
    for r := 0 to mm.Length0
      invariant forall i, j :: 0 <= i < G.Length0 && 0 <= j < G.Length1 ==>
        G[i, j] == if row <= i < row + r && column <= j < column + mm.Length1
                   then old(G[i, j]) + mm[i - row, j - column] else old(G[i, j])
    {
      for c := 0 to mm.Length1
        invariant forall i, j :: 0 <= i < G.Length0 && 0 <= j < G.Length1 ==>
          G[i, j] == if (row <= i < row + r && column <= j < column + mm.Length1) ||
            (i == row + r && column <= j < column + c)
                     then old(G[i, j]) + mm[i - row, j - column] else old(G[i, j])
      {
        G[row + r, column + c] := G[row + r, column + c] + mm[r, c];
      }
    }
  }

  lemma AddedBlock(m: nat, n: nat, x: nat, y: nat, row: nat, column: nat, E: Mat, G: Mat, G': Mat)
    requires x < n && y < n && row == m * x && column == m * y && row + m <= m * n && column + m <= m * n
    requires forall i, j :: 0 <= i < m * n && 0 <= j < m * n ==>
      G'(i, j) == if row <= i < row + m && column <= j < column + m then G(i, j) + E(i - row, j - column) else G(i, j)
    ensures BlockAdded(m, n, x, y, E, G, G')
  {
    forall x', y', r, c | 0 <= x' < n && 0 <= y' < n && 0 <= r < m && 0 <= c < m
      ensures BlockAddedAt(m, x, y, E, G, G', x', y', r, c)
    {
      BlkRange(m, n, x', r);
      BlkRange(m, n, y', c);
      var i, j := Blk(m, x', r), Blk(m, y', c);
      if x' == x && y' == y {
        assert i == row + r && j == column + c;
      } else {
        Elsewhere(m, x', r, x, y', c, y);
        assert !(row <= i < row + m && column <= j < column + m);
      }
    }
  }

  lemma Elsewhere(m: int, x': int, r: int, x: int, y': int, c: int, y: int)
    requires 0 <= r < m && 0 <= c < m && (x' != x || y' != y)
    ensures !(m * x <= Blk(m, x', r) < m * x + m && m * y <= Blk(m, y', c) < m * y + m)
  {
    if m * x <= Blk(m, x', r) < m * x + m && m * y <= Blk(m, y', c) < m * y + m {
      BlkInjective(m, x', r, x);
      BlkInjective(m, y', c, y);
    }
  }

  /** The blocks (k-j+i, k) for first <= k < last, or their mirror images, have received E. */
  ghost function AlongDiagonal(off: int, i: int, j: int, last: int, upper: bool, E: Mat, x: int, y: int, r: int,
                               c: int): real {
    if upper && j + off <= y < last + off && x == y - (j - i) then E(r, c)
    else if !upper && j + off <= x < last + off && y == x - (j - i) then E(r, c)
    else 0.0
  }

  ghost predicate DiagonalAdded(m: int, n: int, off: int, i: int, j: int, last: int, upper: bool, E: Mat, G: Mat,
                                G': Mat) {
    forall x, y, r, c :: 0 <= x < n && 0 <= y < n && 0 <= r < m && 0 <= c < m ==>
      DiagonalAddedAt(m, off, i, j, last, upper, E, G, G', x, y, r, c)
  }

  ghost predicate DiagonalAddedAt(m: int, off: int, i: int, j: int, last: int, upper: bool, E: Mat, G: Mat, G': Mat,
                                  x: int, y: int, r: int, c: int) {
    EntryAdded(m, AlongDiagonal(off, i, j, last, upper, E, x, y, r, c), G, G', x, y, r, c)
  }

  lemma DiagonalOneMore(m: int, n: int, off: int, i: int, j: int, k: int, upper: bool, E: Mat, G: Mat, G1: Mat, G2: Mat)
    requires 0 <= off && 0 <= i <= j <= k < n - off
    requires DiagonalAdded(m, n, off, i, j, k, upper, E, G, G1)
    requires upper ==> BlockAdded(m, n, k - j + i + off, k + off, E, G1, G2)
    requires !upper ==> BlockAdded(m, n, k + off, k - j + i + off, E, G1, G2)
    ensures DiagonalAdded(m, n, off, i, j, k + 1, upper, E, G, G2)
  {
    var near, far, k' := k - j + i + off, k + off, k + 1;
    forall x, y, r, c | 0 <= x < n && 0 <= y < n && 0 <= r < m && 0 <= c < m
      ensures DiagonalAddedAt(m, off, i, j, k', upper, E, G, G2, x, y, r, c)
    {
      assert DiagonalAddedAt(m, off, i, j, k, upper, E, G, G1, x, y, r, c);
      if upper {
        assert BlockAddedAt(m, near, far, E, G1, G2, x, y, r, c);
      } else {
        assert BlockAddedAt(m, far, near, E, G1, G2, x, y, r, c);
      }
    }
  }

  method AddAlongDiagonal(G: array2<real>, mm: array2<real>, m: nat, s: nat, off: nat, i: nat, j: nat, upper: bool,
                          ghost E: Mat)
    requires G.Length0 == G.Length1 == m * (s + off) && mm.Length0 == mm.Length1 == m && G != mm
    requires i <= j < s
    requires Is(mm, E)
    modifies G
    ensures DiagonalAdded(m, s + off, off, i, j, s, upper, E, old(MatOf(G)), MatOf(G))
  {
    ghost var G0 := MatOf(G);
    hide DiagonalAdded, BlockAdded, MatOf, Is;
    NothingAdded(m, s + off, off, i, j, upper, E, G0);
    for k := j to s
      invariant DiagonalAdded(m, s + off, off, i, j, k, upper, E, G0, MatOf(G))
      invariant Is(mm, E)
    {
      ghost var G1 := MatOf(G);
      var near, far := m * (k - j + i + off), m * (k + off);
      if upper {
        AddBlock(G, mm, m, s + off, k - j + i + off, k + off, near, far, E);
      } else {
        AddBlock(G, mm, m, s + off, k + off, k - j + i + off, far, near, E);
      }
      DiagonalOneMore(m, s + off, off, i, j, k, upper, E, G0, G1, MatOf(G));
    }
  }

  lemma NothingAdded(m: int, n: int, off: int, i: int, j: int, upper: bool, E: Mat, G: Mat)
    ensures DiagonalAdded(m, n, off, i, j, j, upper, E, G, G)
  {
  }

  /** tmp1'*tmp2, in terms of what they hold. */
  method TransposeProductOf(a: array2<real>, b: array2<real>, r: array2<real>, ghost F: Mat, ghost G: Mat)
    requires a.Length0 == b.Length0 && r.Length0 == a.Length1 && r.Length1 == b.Length1 && r != a && r != b
    requires Is(a, F) && Is(b, G)
    modifies r
    ensures Is(r, Product(a.Length0, Transpose(F), G))
  {
    TransposeProd(a, b, r);
    forall i, j | 0 <= i < r.Length0 && 0 <= j < r.Length1
      ensures r[i, j] == Product(a.Length0, Transpose(F), G)(i, j)
    {
      SumEq(0, a.Length0, ProdTerms(Transpose(MatOf(a)), MatOf(b), i, j), ProdTerms(Transpose(F), G, i, j));
    }
  }

  lemma BothSidesAdded(p: int, m: int, s: int, T: Blocks, off: int, i: int, j: int, G: Mat, G1: Mat, G2: Mat)
    requires 0 <= off && 0 <= i <= j < s
    requires DiagonalAdded(m, s + off, off, i, j, s, true, Product(p, Transpose(T(i)), T(j)), G, G1)
    requires i != j ==> DiagonalAdded(m, s + off, off, i, j, s, false, Product(p, Transpose(T(j)), T(i)), G1, G2)
    requires i == j ==> G1 == G2
    ensures Added(p, m, s + off, T, off, i, j, G, G2)
  {
    var E, E' := Product(p, Transpose(T(i)), T(j)), Product(p, Transpose(T(j)), T(i));
    forall x, y, r, c | 0 <= x < s + off && 0 <= y < s + off && 0 <= r < m && 0 <= c < m
      ensures AddedAt(p, m, T, off, i, j, G, G2, x, y, r, c)
    {
      assert DiagonalAddedAt(m, off, i, j, s, true, E, G, G1, x, y, r, c);
      if i != j {
        assert DiagonalAddedAt(m, off, i, j, s, false, E', G1, G2, x, y, r, c);
      }
      hide Product, Sum;
    }
  }

  /** One pass of the inner loop. */
  method AddPair(C: array2<real>, G: array2<real>, tmp1: array2<real>, tmp2: array2<real>, mm: array2<real>,
                 p: nat, m: nat, s: nat, off: nat, i: nat, j: nat, ghost T: Blocks)
    requires p <= C.Length0 && C.Length1 == m * (s + off) && G.Length0 == G.Length1 == m * (s + off)
    requires tmp1.Length0 == tmp2.Length0 == p && tmp1.Length1 == tmp2.Length1 == m && mm.Length0 == mm.Length1 == m
    requires tmp1 != tmp2 && mm != tmp1 && mm != tmp2 && G != C && G != tmp1 && G != tmp2 && G != mm
    requires C != tmp1 && C != tmp2 && C != mm
    requires i <= j < s
    requires Is(tmp1, T(i)) && IsBlock(MatOf(C), p, m, 0, j + off, T(j))
    modifies G, tmp2, mm
    ensures Added(p, m, s + off, T, off, i, j, old(MatOf(G)), MatOf(G))
  {
    hide IsBlock, Is, MatOf, DiagonalAdded, Added, Product;
    ghost var G0 := MatOf(G);
    BlockFits(m, s + off, j + off);
    CopyFirstRow(C, tmp2, p, m, j + off, m * (j + off), T(j));
    TransposeProductOf(tmp1, tmp2, mm, T(i), T(j));
    AddAlongDiagonal(G, mm, m, s, off, i, j, true, Product(p, Transpose(T(i)), T(j)));
    ghost var G1 := MatOf(G);
    if j != i {
      TransposeProductOf(tmp2, tmp1, mm, T(j), T(i));
      AddAlongDiagonal(G, mm, m, s, off, i, j, false, Product(p, Transpose(T(j)), T(i)));
    }
    BothSidesAdded(p, m, s, T, off, i, j, G0, G1, MatOf(G));
  }

  /** The whole accumulation, on a matrix G that starts at zero. */
  method Accumulate(C: array2<real>, G: array2<real>, p: nat, m: nat, s: nat, off: nat, ghost T: Blocks)
    requires p <= C.Length0 && C.Length1 == m * (s + off) && G.Length0 == G.Length1 == m * (s + off) && G != C
    requires forall j :: 0 <= j < s ==> IsBlock(MatOf(C), p, m, 0, j + off, T(j))
    requires forall r, c :: 0 <= r < G.Length0 && 0 <= c < G.Length1 ==> G[r, c] == 0.0
    modifies G
    ensures Accumulated(p, m, s + off, T, off, s, s, MatOf(G))
  {
    var tmp1, tmp2, mm := new real[p, m], new real[p, m], new real[m, m];
    ghost var C0 := MatOf(C);
    StartsAtZero(p, m, s, T, off, MatOf(G));
    for i := 0 to s
      invariant MatOf(C) == C0
      invariant Accumulated(p, m, s + off, T, off, i, i, MatOf(G))
    {
      hide IsBlock, Is, Accumulated, Added;
      BlockFits(m, s + off, i + off);
      CopyFirstRow(C, tmp1, p, m, i + off, m * (i + off), T(i));
      for j := i to s
        invariant MatOf(C) == C0 && Is(tmp1, T(i))
        invariant Accumulated(p, m, s + off, T, off, i, j, MatOf(G))
      {
        ghost var G0 := MatOf(G);
        AddPair(C, G, tmp1, tmp2, mm, p, m, s, off, i, j, T);
        AccumulateStep(p, m, s + off, T, off, i, j, G0, MatOf(G));
      }
      NextRow(p, m, s, T, off, i, MatOf(G));
    }
  }

  lemma StartsAtZero(p: nat, m: nat, s: nat, T: Blocks, off: nat, G: Mat)
    requires forall r, c :: 0 <= r < m * (s + off) && 0 <= c < m * (s + off) ==> G(r, c) == 0.0
    ensures Accumulated(p, m, s + off, T, off, 0, 0, G)
  {
    forall x, y | 0 <= x < s + off && 0 <= y < s + off
      ensures AccumulatedBlock(p, m, T, off, 0, 0, G, x, y)
    {
      var Z := Progress(p, T, off, 0, 0, x, y);
      forall r, c | 0 <= r < m && 0 <= c < m
        ensures BlockEntry(G, m, m, x, y, Z, r, c)
      {
        BlkRange(m, s + off, x, r);
        BlkRange(m, s + off, y, c);
      }
    }
  }
}

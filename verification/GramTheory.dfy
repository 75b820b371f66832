// The faster accumulation of C'*C in GPC_Control and GPC_Control2 of utils/GPC.c, as block algebra:
// what it adds up, and when that is the full product.
module GramTheory {
  import opened LinearAlgebra
  import opened Sums
  import opened BlockMatrices

  /** A family of p by m blocks. */
  type Blocks = int -> Mat

  /** T(i)' * T(j), entry (r, c). */
  ghost function Pair(p: int, T: Blocks, i: int, j: int, r: int, c: int): real {
    Product(p, Transpose(T(i)), T(j))(r, c)
  }

  /** The pairs that end up in block (a, b). */
  ghost function PairTerms(p: int, T: Blocks, a: int, b: int, r: int, c: int): Vec {
    k => if a <= b then Pair(p, T, k, k + (b - a), r, c) else Pair(p, T, k + (a - b), k, r, c)
  }

  ghost function Min(a: int, b: int): int {
    if a <= b then a else b
  }

  /** What block (a, b) has received once the outer loop has passed the blocks before `done`. */
  ghost function Received(p: int, T: Blocks, done: int, a: int, b: int): Mat {
    (r, c) => Sum(0, Min(done, Min(a, b) + 1), PairTerms(p, T, a, b, r, c))
  }

  /** The content of block (x, y) of the accumulator while the outer loop is at i and the inner at j:
      the first `off` block rows and columns are never touched. */
  ghost function Progress(p: int, T: Blocks, off: int, i: int, j: int, x: int, y: int): Mat {
    if x < off || y < off then (r, c) => 0.0
    else if -(j - i) < x - y < j - i then Received(p, T, i + 1, x - off, y - off)
    else Received(p, T, i, x - off, y - off)
  }

  /** The accumulator holds what the loops have added so far. */
  ghost predicate Accumulated(p: int, m: int, n: int, T: Blocks, off: int, i: int, j: int, G: Mat) {
    forall x, y :: 0 <= x < n && 0 <= y < n ==> AccumulatedBlock(p, m, T, off, i, j, G, x, y)
  }

  ghost predicate AccumulatedBlock(p: int, m: int, T: Blocks, off: int, i: int, j: int, G: Mat, x: int, y: int) {
    IsBlock(G, m, m, x, y, Progress(p, T, off, i, j, x, y))
  }

  /** One inner iteration: T(i)'*T(j) goes to the blocks (k-j+i, k), and its transpose opposite, for k >= j. */
  ghost predicate Added(p: int, m: int, n: int, T: Blocks, off: int, i: int, j: int, G: Mat, G': Mat) {
    forall x, y, r, c :: 0 <= x < n && 0 <= y < n && 0 <= r < m && 0 <= c < m ==>
      AddedAt(p, m, T, off, i, j, G, G', x, y, r, c)
  }

  ghost function Addend(p: int, T: Blocks, off: int, i: int, j: int, x: int, y: int, r: int, c: int): real {
    if y >= j + off && x == y - (j - i) then Pair(p, T, i, j, r, c)
    else if x >= j + off && y == x - (j - i) then Pair(p, T, j, i, r, c)
    else 0.0
  }

  ghost predicate AddedAt(p: int, m: int, T: Blocks, off: int, i: int, j: int, G: Mat, G': Mat,
                          x: int, y: int, r: int, c: int) {
    G'(Blk(m, x, r), Blk(m, y, c)) == G(Blk(m, x, r), Blk(m, y, c)) + Addend(p, T, off, i, j, x, y, r, c)
  }

  lemma ReceiveOne(p: int, T: Blocks, off: int, i: int, j: int, x: int, y: int, r: int, c: int)
    requires 0 <= off && 0 <= i <= j && 0 <= x && 0 <= y
    ensures Progress(p, T, off, i, j + 1, x, y)(r, c)
         == Progress(p, T, off, i, j, x, y)(r, c) + Addend(p, T, off, i, j, x, y, r, c)
  {
  }

  lemma AccumulateStep(p: int, m: int, n: int, T: Blocks, off: int, i: int, j: int, G: Mat, G': Mat)
    requires 0 <= off && 0 <= i <= j
    requires Accumulated(p, m, n, T, off, i, j, G)
    requires Added(p, m, n, T, off, i, j, G, G')
    ensures Accumulated(p, m, n, T, off, i, j + 1, G')
  {
    var j' := j + 1;
    forall x, y | 0 <= x < n && 0 <= y < n
      ensures AccumulatedBlock(p, m, T, off, i, j', G', x, y)
    {
      hide Progress, Addend, Sum;
      assert AccumulatedBlock(p, m, T, off, i, j, G, x, y);
      var now := Progress(p, T, off, i, j + 1, x, y);
      forall r, c | 0 <= r < m && 0 <= c < m
        ensures BlockEntry(G', m, m, x, y, now, r, c)
      {
        assert BlockEntry(G, m, m, x, y, Progress(p, T, off, i, j, x, y), r, c);
        assert AddedAt(p, m, T, off, i, j, G, G', x, y, r, c);
        ReceiveOne(p, T, off, i, j, x, y, r, c);
      }
    }
  }

  /** When the inner loop has reached the last block column, the outer loop may move on. */
  lemma NextRow(p: int, m: int, s: int, T: Blocks, off: int, i: int, G: Mat)
    requires 0 <= off && 0 <= i < s
    requires Accumulated(p, m, s + off, T, off, i, s, G)
    ensures Accumulated(p, m, s + off, T, off, i + 1, i + 1, G)
  {
    var i', n := i + 1, s + off;
    forall x, y | 0 <= x < n && 0 <= y < n
      ensures AccumulatedBlock(p, m, T, off, i', i', G, x, y)
    {
      assert AccumulatedBlock(p, m, T, off, i, s, G, x, y);
      if x >= off && y >= off && !(-(s - i) < x - y < s - i) {
        assert Min(i + 1, Min(x - off, y - off) + 1) == Min(i, Min(x - off, y - off) + 1);
        BlockOfEqual(G, m, m, x, y, Progress(p, T, off, i, s, x, y), Progress(p, T, off, i + 1, i + 1, x, y));
      }
    }
  }

  // ----- the full product

  /** C has n = s + off block columns, and block (q, y) is T(y - off - q). */
  ghost predicate Toeplitz(p: int, m: int, s: int, off: int, T: Blocks, C: Mat) {
    forall q, y :: 0 <= q < s && 0 <= y < s + off ==> ToeplitzBlock(p, m, off, T, C, q, y)
  }

  ghost predicate ToeplitzBlock(p: int, m: int, off: int, T: Blocks, C: Mat, q: int, y: int) {
    IsBlock(C, p, m, q, y, T(y - off - q))
  }

  /** The blocks with negative index vanish. */
  ghost predicate Causal(p: int, m: int, T: Blocks) {
    forall k, r, c :: k < 0 && 0 <= r < p && 0 <= c < m ==> T(k)(r, c) == 0.0
  }

  /** Entry (r, c) of block (x, y) of C'*C, by block rows of C. */
  ghost function RowPairs(p: int, T: Blocks, off: int, x: int, y: int, r: int, c: int): Vec {
    q => Pair(p, T, x - off - q, y - off - q, r, c)
  }

  lemma GramByRows(p: nat, m: nat, s: nat, off: nat, T: Blocks, C: Mat, x: int, y: int, r: int, c: int)
    requires Toeplitz(p, m, s, off, T, C)
    requires 0 <= x < s + off && 0 <= y < s + off && 0 <= r < m && 0 <= c < m
    ensures Product(p * s, Transpose(C), C)(Blk(m, x, r), Blk(m, y, c)) == Sum(0, s, RowPairs(p, T, off, x, y, r, c))
  {
    var t := ProdTerms(Transpose(C), C, Blk(m, x, r), Blk(m, y, c));
    var g := RowPairs(p, T, off, x, y, r, c);
    SumByBlocks(p, s, t);
    forall q | 0 <= q < s
      ensures BlockSums(p, t)(q) == g(q)
    {
      RowPair(p, m, off, T, C, q, x, y, r, c);
    }
    SumEq(0, s, BlockSums(p, t), g);
  }

  lemma RowPair(p: nat, m: nat, off: nat, T: Blocks, C: Mat, q: int, x: int, y: int, r: int, c: int)
    requires 0 <= r < m && 0 <= c < m
    requires ToeplitzBlock(p, m, off, T, C, q, x) && ToeplitzBlock(p, m, off, T, C, q, y)
    ensures Sum(0, p, SubVector(ProdTerms(Transpose(C), C, Blk(m, x, r), Blk(m, y, c)), p, q))
         == Pair(p, T, x - off - q, y - off - q, r, c)
  {
    var F, G := T(x - off - q), T(y - off - q);
    var u := SubVector(ProdTerms(Transpose(C), C, Blk(m, x, r), Blk(m, y, c)), p, q);
    var v := ProdTerms(Transpose(F), G, r, c);
    forall k | 0 <= k < p
      ensures u(k) == v(k)
    {
      assert BlockEntry(C, p, m, q, x, F, k, r) && BlockEntry(C, p, m, q, y, G, k, c);
    }
    SumEq(0, p, u, v);
  }

  lemma PairVanishes(p: int, m: int, T: Blocks, i: int, j: int, r: int, c: int)
    requires Causal(p, m, T) && 0 <= r < m && 0 <= c < m && (i < 0 || j < 0)
    ensures Pair(p, T, i, j, r, c) == 0.0
  {
    var t := ProdTerms(Transpose(T(i)), T(j), r, c);
    forall k | 0 <= k < p
      ensures t(k) == 0.0
    {
      if i < 0 {
        assert T(i)(k, r) == 0.0;
      } else {
        assert T(j)(k, c) == 0.0;
      }
    }
    SumZero(0, p, t);
  }

  /** Summing over the block rows of C visits the same pairs in the opposite order. */
  lemma RowsAreReceived(p: int, m: int, s: int, off: int, T: Blocks, x: int, y: int, r: int, c: int)
    requires Causal(p, m, T) && 0 <= off && 0 <= r < m && 0 <= c < m
    requires off <= x < s + off && off <= y < s + off
    ensures Sum(0, s, RowPairs(p, T, off, x, y, r, c)) == Received(p, T, s, x - off, y - off)(r, c)
  {
    var a, b := x - off, y - off;
    var n := Min(a, b) + 1;
    var g, f := RowPairs(p, T, off, x, y, r, c), PairTerms(p, T, a, b, r, c);
    SumSplit(0, n, s, g);
    forall q | n <= q < s
      ensures g(q) == 0.0
    {
      PairVanishes(p, m, T, a - q, b - q, r, c);
    }
    SumZero(n, s, g);
    hide Pair;
    forall q | 0 <= q < n
      ensures g(q) == f(n - 1 - q)
    {
    }
    SumReverse(n, f, g);
  }

  lemma UntouchedVanishes(p: int, m: int, s: int, off: int, T: Blocks, x: int, y: int, r: int, c: int)
    requires Causal(p, m, T) && 0 <= r < m && 0 <= c < m && (x < off || y < off)
    ensures Sum(0, s, RowPairs(p, T, off, x, y, r, c)) == 0.0
  {
    var g := RowPairs(p, T, off, x, y, r, c);
    forall q | 0 <= q < s
      ensures g(q) == 0.0
    {
      PairVanishes(p, m, T, x - off - q, y - off - q, r, c);
    }
    SumZero(0, s, g);
  }

  /** The accumulator is the full product C'*C whenever C is causal block Toeplitz. */
  lemma AccumulatedIsGram(p: nat, m: nat, s: nat, off: nat, T: Blocks, C: Mat, G: Mat, x: int, y: int, r: int, c: int)
    requires Toeplitz(p, m, s, off, T, C) && Causal(p, m, T)
    requires Accumulated(p, m, s + off, T, off, s, s, G)
    requires 0 <= x < s + off && 0 <= y < s + off && 0 <= r < m && 0 <= c < m
    ensures G(Blk(m, x, r), Blk(m, y, c)) == Product(p * s, Transpose(C), C)(Blk(m, x, r), Blk(m, y, c))
  {
    assert AccumulatedBlock(p, m, T, off, s, s, G, x, y);
    assert BlockEntry(G, m, m, x, y, Progress(p, T, off, s, s, x, y), r, c);
    GramByRows(p, m, s, off, T, C, x, y, r, c);
    if x < off || y < off {
      UntouchedVanishes(p, m, s, off, T, x, y, r, c);
    } else {
      RowsAreReceived(p, m, s, off, T, x, y, r, c);
    }
  }
}

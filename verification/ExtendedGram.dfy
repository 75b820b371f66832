// The extended matrix C2 of utils/GPC.c, which lets the control at step k use the measurement at step k:
// C followed by the first block column of B.  When the accumulation of GPC_Control2 is its full product.
module ExtendedGram {
  import opened LinearAlgebra
  import opened Sums
  import opened BlockMatrices
  import opened PredictionTheory
  import opened PredictionMatrices
  import opened GramTheory
  import opened ControlTheory

  /** Column `y` of C2 in block row q: C first, then the first block column of B. */
  ghost function ExtendedBlock(M: Model, s: int, q: int, y: int): Mat {
    if y < s then Markov(M, y - q) else Block(M, Input, s - 1 - q, 0)
  }

  ghost predicate HoldsExtended(M: Model, s: int, C2: Mat) {
    forall q, y :: 0 <= q < s && 0 <= y <= s ==> ExtendedAt(M, s, C2, q, y)
  }

  ghost predicate ExtendedAt(M: Model, s: int, C2: Mat, q: int, y: int) {
    IsBlock(C2, M.p, M.m, q, y, ExtendedBlock(M, s, q, y))
  }

  /** C2 is put together from the flat entries of C and B. */
  lemma ExtendedFromParts(M: Model, s: int, B: Mat, C: Mat, C2: Mat)
    requires M.nb >= 1
    requires HoldsChannel(M, Input, s, B) && HoldsMarkov(M, s, C)
    requires forall i, k :: 0 <= i < M.p * s && 0 <= k < M.m * s ==> C2(i, k) == C(i, k)
    requires forall i, c :: 0 <= i < M.p * s && 0 <= c < M.m ==> C2(i, M.m * s + c) == B(i, c)
    ensures HoldsExtended(M, s, C2)
  {
    hide HoldsChannel, HoldsMarkov, ExtendedAt;
    forall q, y | 0 <= q < s && 0 <= y <= s
      ensures ExtendedAt(M, s, C2, q, y)
    {
      if y < s {
        ExtendedLeft(M, s, C, C2, q, y);
      } else {
        ExtendedRight(M, s, B, C2, q);
      }
    }
  }

  lemma ExtendedLeft(M: Model, s: int, C: Mat, C2: Mat, q: int, y: int)
    requires 0 <= q < s && 0 <= y < s && HoldsMarkov(M, s, C)
    requires forall i, k :: 0 <= i < M.p * s && 0 <= k < M.m * s ==> C2(i, k) == C(i, k)
    ensures ExtendedAt(M, s, C2, q, y)
  {
    hide Markov, Block, IsBlock;
    assert MarkovBlock(M, C, q, y);
    SameBlock(M.p, M.m, s, s, C, C2, q, y, ExtendedBlock(M, s, q, y));
  }

  lemma ExtendedRight(M: Model, s: int, B: Mat, C2: Mat, q: int)
    requires 0 <= q < s && M.nb >= 1 && HoldsChannel(M, Input, s, B)
    requires forall i, c :: 0 <= i < M.p * s && 0 <= c < M.m ==> C2(i, M.m * s + c) == B(i, c)
    ensures ExtendedAt(M, s, C2, q, s)
  {
    hide Markov, Block, IsBlock;
    assert IsBlock(B, M.p, M.m, s - 1 - (s - 1 - q), 0, ExtendedBlock(M, s, q, s));
    MovedBlock(M.p, M.m, s, M.nb, B, C2, q, s, ExtendedBlock(M, s, q, s));
  }

  lemma SameBlock(h: int, w: int, rows: int, columns: int, X: Mat, X': Mat, rb: int, cb: int, F: Mat)
    requires 0 <= rb < rows && 0 <= cb < columns
    requires forall i, k :: 0 <= i < h * rows && 0 <= k < w * columns ==> X'(i, k) == X(i, k)
    requires IsBlock(X, h, w, rb, cb, F)
    ensures IsBlock(X', h, w, rb, cb, F)
  {
    forall r, c | 0 <= r < h && 0 <= c < w
      ensures BlockEntry(X', h, w, rb, cb, F, r, c)
    {
      BlkRange(h, rows, rb, r);
      BlkRange(w, columns, cb, c);
      assert BlockEntry(X, h, w, rb, cb, F, r, c);
    }
  }

  lemma MovedBlock(h: int, w: int, rows: int, columns: int, X: Mat, X': Mat, rb: int, cb: int, F: Mat)
    requires 0 <= rb < rows && columns >= 1
    requires forall i, c :: 0 <= i < h * rows && 0 <= c < w ==> X'(i, w * cb + c) == X(i, c)
    requires IsBlock(X, h, w, rb, 0, F)
    ensures IsBlock(X', h, w, rb, cb, F)
  {
    forall r, c | 0 <= r < h && 0 <= c < w
      ensures BlockEntry(X', h, w, rb, cb, F, r, c)
    {
      BlkRange(h, rows, rb, r);
      assert BlockEntry(X, h, w, rb, 0, F, r, c);
      assert Blk(w, 0, c) == c && Blk(w, cb, c) == w * cb + c;
    }
  }

  /** The blocks that the accumulation reads from the first block row of C2. */
  ghost function Tail(M: Model, s: int): Blocks {
    k => ExtendedBlock(M, s, 0, k + 1)
  }

  /** The model has no direct term: it is strictly proper. */
  ghost predicate StrictlyProper(M: Model) {
    forall r, c :: 0 <= r < M.p && 0 <= c < M.m ==> Direct(M)(r, c) == 0.0
  }

  /** Without a direct term, the last response is the block that B provides. */
  lemma LastResponse(M: Model, i: int, r: int, c: int)
    requires StrictlyProper(M) && i >= 1 && 0 <= c < M.m
    ensures Markov(M, i)(r, c) == Block(M, Input, i - 1, 0)(r, c)
  {
    var t := ProdTerms(Block(M, Output, i - 1, 0), Direct(M), r, c);
    hide Block, Direct;
    forall k | 0 <= k < M.p
      ensures t(k) == 0.0
    {
      assert Direct(M)(k, c) == 0.0;
    }
    SumZero(0, M.p, t);
  }

  lemma ExtendedToeplitz(M: Model, s: int, C2: Mat)
    requires s >= 1 && StrictlyProper(M) && HoldsExtended(M, s, C2)
    ensures Toeplitz(M.p, M.m, s, 1, Tail(M, s), C2) && Causal(M.p, M.m, Tail(M, s))
  {
    var T, n := Tail(M, s), s + 1;
    forall q, y | 0 <= q < s && 0 <= y < n
      ensures ToeplitzBlock(M.p, M.m, 1, T, C2, q, y)
    {
      assert ExtendedAt(M, s, C2, q, y);
      hide IsBlock, StrictlyProper, HoldsExtended;
      SameResponses(M, s, q, y);
      BlockOfEqual(C2, M.p, M.m, q, y, ExtendedBlock(M, s, q, y), T(y - 1 - q));
    }
    forall k, r, c | k < 0 && 0 <= r < M.p && 0 <= c < M.m
      ensures T(k)(r, c) == 0.0
    {
      assert T(k) == Markov(M, k + 1);
    }
  }

  lemma SameResponses(M: Model, s: int, q: int, y: int)
    requires s >= 1 && StrictlyProper(M) && 0 <= q < s && 0 <= y <= s
    ensures forall r, c :: 0 <= r < M.p && 0 <= c < M.m ==>
            ExtendedBlock(M, s, q, y)(r, c) == Tail(M, s)(y - 1 - q)(r, c)
  {
    hide Markov, Block;
    if y == s && q > 0 {
      assert Tail(M, s)(y - 1 - q) == Markov(M, s - q);
      forall r, c | 0 <= r < M.p && 0 <= c < M.m
        ensures ExtendedBlock(M, s, q, y)(r, c) == Markov(M, s - q)(r, c)
      {
        LastResponse(M, s - q, r, c);
      }
    } else {
      assert Tail(M, s)(y - 1 - q) == ExtendedBlock(M, s, q, y);
    }
  }

  // ----- the matrix whose product is accumulated, for any model

  /** The tail, with nothing before it. */
  ghost function CausalTail(M: Model, s: int): Blocks {
    k => CausalBlock(M, s, k)
  }

  ghost function CausalBlock(M: Model, s: int, k: int): Mat {
    if k < 0 then Zero() else Tail(M, s)(k)
  }

  /** The first block row of C2 without the direct term, continued along the block diagonals. */
  ghost function WithoutDirect(M: Model, s: int): Mat {
    (i, j) => if M.p > 0 && M.m > 0 then CausalTail(M, s)(j / M.m - 1 - i / M.p)(i % M.p, j % M.m) else 0.0
  }

  lemma WithoutDirectToeplitz(M: Model, s: int)
    ensures Toeplitz(M.p, M.m, s, 1, CausalTail(M, s), WithoutDirect(M, s)) && Causal(M.p, M.m, CausalTail(M, s))
  {
    var T, K := CausalTail(M, s), WithoutDirect(M, s);
    forall q, y | 0 <= q < s && 0 <= y < s + 1
      ensures ToeplitzBlock(M.p, M.m, 1, T, K, q, y)
    {
      ContinuedBlock(M, s, q, y, T(y - 1 - q));
    }
  }

  lemma ContinuedBlock(M: Model, s: int, q: int, y: int, F: Mat)
    requires F == CausalTail(M, s)(y - 1 - q)
    ensures IsBlock(WithoutDirect(M, s), M.p, M.m, q, y, F)
  {
    forall r, c | 0 <= r < M.p && 0 <= c < M.m
      ensures BlockEntry(WithoutDirect(M, s), M.p, M.m, q, y, F, r, c)
    {
      BlkParts(M.p, q, r);
      BlkParts(M.m, y, c);
    }
  }

  lemma BlkParts(w: int, j: int, c: int)
    requires 0 <= c < w
    ensures Blk(w, j, c) / w == j && Blk(w, j, c) % w == c
  {
    var k := Blk(w, j, c);
    assert k == Blk(w, k / w, k % w);
    BlkInjective(w, k / w, k % w, j);
  }

  /** For a strictly proper model nothing is missing. */
  lemma WithoutDirectIsAll(M: Model, s: int, C2: Mat)
    requires s >= 1 && StrictlyProper(M) && HoldsExtended(M, s, C2)
    ensures forall i, j :: 0 <= i < M.p * s && 0 <= j < M.m * (s + 1) ==> WithoutDirect(M, s)(i, j) == C2(i, j)
  {
    ExtendedToeplitz(M, s, C2);
    WithoutDirectToeplitz(M, s);
    forall i, j | 0 <= i < M.p * s && 0 <= j < M.m * (s + 1)
      ensures WithoutDirect(M, s)(i, j) == C2(i, j)
    {
      Decompose(M.p, s, i);
      Decompose(M.m, s + 1, j);
      var q, r, y, c := i / M.p, i % M.p, j / M.m, j % M.m;
      assert ToeplitzBlock(M.p, M.m, 1, Tail(M, s), C2, q, y);
      assert BlockEntry(C2, M.p, M.m, q, y, Tail(M, s)(y - 1 - q), r, c);
    }
  }

  lemma DiagonalOfGram(q: int, C: Mat, i: int)
    ensures Product(q, Transpose(C), C)(i, i) == Dot(q, Column(C, i), Column(C, i))
  {
    SumEq(0, q, ProdTerms(Transpose(C), C, i, i), Times(Column(C, i), Column(C, i)));
  }

  /** The accumulation of GPC_Control2 is the full product exactly for strictly proper models. */
  lemma ExtendedGramExact(M: Model, s: nat, C2: Mat, G: Mat)
    requires s >= 1 && HoldsExtended(M, s, C2)
    requires Accumulated(M.p, M.m, s + 1, Tail(M, s), 1, s, s, G)
    ensures (forall i, j :: 0 <= i < M.m * (s + 1) && 0 <= j < M.m * (s + 1) ==>
              G(i, j) == Product(M.p * s, Transpose(C2), C2)(i, j))
       <==> StrictlyProper(M)
  {
    var T := Tail(M, s);
    if StrictlyProper(M) {
      ExtendedToeplitz(M, s, C2);
      hide HoldsExtended, Toeplitz, Causal, Accumulated, StrictlyProper;
      forall i, j | 0 <= i < M.m * (s + 1) && 0 <= j < M.m * (s + 1)
        ensures G(i, j) == Product(M.p * s, Transpose(C2), C2)(i, j)
      {
        Decompose(M.m, s + 1, i);
        Decompose(M.m, s + 1, j);
        AccumulatedIsGram(M.p, M.m, s, 1, T, C2, G, i / M.m, j / M.m, i % M.m, j % M.m);
      }
    }
    if forall i, j :: 0 <= i < M.m * (s + 1) && 0 <= j < M.m * (s + 1) ==>
        G(i, j) == Product(M.p * s, Transpose(C2), C2)(i, j) {
      forall r, c | 0 <= r < M.p && 0 <= c < M.m
        ensures Direct(M)(r, c) == 0.0
      {
        BlkRange(M.m, s + 1, 0, c);
        FirstColumnVanishes(M, s, C2, G, r, c);
      }
    }
  }

  /** The first block row and column of the accumulator are never touched. */
  lemma FirstColumnVanishes(M: Model, s: nat, C2: Mat, G: Mat, r: int, c: int)
    requires s >= 1 && HoldsExtended(M, s, C2) && 0 <= r < M.p && 0 <= c < M.m
    requires Accumulated(M.p, M.m, s + 1, Tail(M, s), 1, s, s, G)
    requires G(Blk(M.m, 0, c), Blk(M.m, 0, c)) == Product(M.p * s, Transpose(C2), C2)(Blk(M.m, 0, c), Blk(M.m, 0, c))
    ensures Direct(M)(r, c) == 0.0
  {
    var i := Blk(M.m, 0, c);
    assert AccumulatedBlock(M.p, M.m, Tail(M, s), 1, s, s, G, 0, 0);
    assert BlockEntry(G, M.m, M.m, 0, 0, Progress(M.p, Tail(M, s), 1, s, s, 0, 0), c, c);
    DiagonalOfGram(M.p * s, C2, i);
    DotSelf(M.p * s, Column(C2, i));
    BlkRange(M.p, s, 0, r);
    assert Column(C2, i)(Blk(M.p, 0, r)) == 0.0;
    assert ExtendedAt(M, s, C2, 0, 0) && BlockEntry(C2, M.p, M.m, 0, 0, Markov(M, 0), r, c);
  }

  /** A one-input one-output model with a direct term, for which the two products differ. */
  lemma SimplyProperExample(s: nat, C2: Mat, G: Mat)
    requires s >= 1
    requires HoldsExtended(Model(1, 2, 0, 1, 1, 1, (r, c) => 1.0), s, C2)
    requires Accumulated(1, 1, s + 1, Tail(Model(1, 2, 0, 1, 1, 1, (r, c) => 1.0), s), 1, s, s, G)
    ensures exists i, j :: 0 <= i <= s && 0 <= j <= s && G(i, j) != Product(s, Transpose(C2), C2)(i, j)
  {
    var M := Model(1, 2, 0, 1, 1, 1, (r, c) => 1.0);
    assert Direct(M)(0, 0) == 1.0;
    ExtendedGramExact(M, s, C2, G);
  }

  /** C2 is C followed by the first block column of B, and B2 is the rest of B. */
  ghost predicate ExtendedParts(rows: int, m: int, nb: int, s: int, B: Mat, C: Mat, B2: Mat, C2: Mat) {
    forall i :: 0 <= i < rows ==> ExtendedRow(m, nb, s, B, C, B2, C2, i)
  }

  ghost predicate ExtendedRow(m: int, nb: int, s: int, B: Mat, C: Mat, B2: Mat, C2: Mat, i: int) {
    && (forall k :: 0 <= k < m * s ==> C2(i, k) == C(i, k))
    && (forall c :: 0 <= c < m ==> C2(i, m * s + c) == B(i, c))
    && (forall k :: 0 <= k < m * (nb - 1) ==> B2(i, k) == B(i, m + k))
  }

  /** Splitting the inputs differently between past and plan does not change their total contribution. */
  lemma SameContribution(m: nat, nb: nat, s: nat, B: Mat, C: Mat, B2: Mat, C2: Mat,
                         Up: Vec, Us: Vec, Up2: Vec, Us2: Vec, i: int)
    requires nb >= 1
    requires ExtendedRow(m, nb, s, B, C, B2, C2, i)
    requires forall k :: 0 <= k < m * s ==> Us2(k) == Us(k)
    requires forall c :: 0 <= c < m ==> Us2(m * s + c) == Up(c)
    requires forall k :: 0 <= k < m * (nb - 1) ==> Up2(k) == Up(m + k)
    ensures Apply(m * nb, B, Up)(i) + Apply(m * s, C, Us)(i)
         == Apply(m * (nb - 1), B2, Up2)(i) + Apply(m * (s + 1), C2, Us2)(i)
  {
    assert m * nb == m + m * (nb - 1) && m * (s + 1) == m * s + m;
    SumsRegroup(m, m * (nb - 1), m * s, RowTimes(B, i, Up), RowTimes(C, i, Us), RowTimes(B2, i, Up2),
                RowTimes(C2, i, Us2));
  }

  lemma SumsRegroup(m: nat, rest: int, plan: int, b: Vec, c: Vec, b2: Vec, c2: Vec)
    requires rest >= 0 && plan >= 0
    requires forall k :: 0 <= k < plan ==> c(k) == c2(k)
    requires forall k :: 0 <= k < m ==> b(k) == c2(k + plan)
    requires forall k :: 0 <= k < rest ==> b2(k) == b(k + m)
    ensures Sum(0, m + rest, b) + Sum(0, plan, c) == Sum(0, rest, b2) + Sum(0, plan + m, c2)
  {
    SumSplit(0, m, m + rest, b);
    SumSplit(0, plan, plan + m, c2);
    SumEq(0, plan, c, c2);
    SumShift(0, m, plan, c2, b);
    SumShift(0, rest, m, b, b2);
  }
}

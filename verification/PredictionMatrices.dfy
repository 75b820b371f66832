// The prediction matrices of utils/GPC.c as flat matrices, and what their products with the
// stored windows mean.
module PredictionMatrices {
  import opened LinearAlgebra
  import opened Sums
  import opened BlockMatrices
  import opened PredictionTheory

  /** Block rows are stored in reverse: the i-steps-ahead prediction is block row s-1-i. */
  ghost predicate HoldsChannel(M: Model, ch: Channel, s: int, X: Mat) {
    forall i, j :: 0 <= i < s && 0 <= j < Count(M, ch) ==>
      IsBlock(X, M.p, Width(M, ch), s - 1 - i, j, Block(M, ch, i, j))
  }

  /** C is block upper triangular Toeplitz in the responses of the model. */
  ghost predicate HoldsMarkov(M: Model, s: int, C: Mat) {
    forall rb, cb :: 0 <= rb < s && 0 <= cb < s ==> MarkovBlock(M, C, rb, cb)
  }

  ghost predicate MarkovBlock(M: Model, C: Mat, rb: int, cb: int) {
    IsBlock(C, M.p, M.m, rb, cb, Markov(M, cb - rb))
  }

  /** A, B, C, D are the matrices of the s-step predictor. */
  ghost predicate PredictsWith(M: Model, s: int, A: Mat, B: Mat, C: Mat, D: Mat) {
    && HoldsChannel(M, Output, s, A) && HoldsChannel(M, Input, s, B) && HoldsChannel(M, Noise, s, D)
    && HoldsMarkov(M, s, C)
  }

  /** The window holds the samples of the signal before time t, the newest first. */
  ghost predicate WindowOf(x: Vec, w: int, n: int, z: Signal, t: int) {
    forall j, c :: 0 <= j < n && 0 <= c < w ==> SubVector(x, w, j)(c) == z(t - 1 - j, c)
  }

  /** The planned inputs: block c is the input at time t+s-1-c. */
  ghost predicate PlanOf(x: Vec, m: int, s: int, u: Signal, t: int) {
    forall b, c :: 0 <= b < s && 0 <= c < m ==> SubVector(x, m, b)(c) == u(t + s - 1 - b, c)
  }

  lemma PastProduct(M: Model, ch: Channel, s: int, X: Mat, x: Vec, z: Signal, t: int, i: int, r: int)
    requires 0 <= i < s && 0 <= r < M.p
    requires HoldsChannel(M, ch, s, X)
    requires WindowOf(x, Width(M, ch), Count(M, ch), z, t)
    ensures Apply(Width(M, ch) * Count(M, ch), X, x)(Blk(M.p, s - 1 - i, r)) == FromPast(M, ch, z, i, t, r)
  {
    var w, n := Width(M, ch), Count(M, ch);
    var F: int -> Mat := j => Block(M, ch, i, j);
    forall j | 0 <= j < n
      ensures IsBlock(X, M.p, w, s - 1 - i, j, F(j))
    {
    }
    ApplyByBlocks(M.p, w, n, X, x, s - 1 - i, r, F);
    forall j | 0 <= j < n
      ensures BlockProducts(w, F, x, r)(j) == PastTerms(M, ch, z, i, t, r)(j)
    {
      hide Block;
      ApplyEq(w, F(j), Block(M, ch, i, j), r, SubVector(x, w, j), Row(z, t - 1 - j));
    }
    SumEq(0, n, BlockProducts(w, F, x, r), PastTerms(M, ch, z, i, t, r));
  }

  lemma PlannedProduct(M: Model, s: nat, C: Mat, x: Vec, u: Signal, t: int, i: int, r: int)
    requires 0 <= i < s && 0 <= r < M.p
    requires HoldsMarkov(M, s, C)
    requires PlanOf(x, M.m, s, u, t)
    ensures Apply(M.m * s, C, x)(Blk(M.p, s - 1 - i, r)) == FromFuture(M, u, i, t, r)
  {
    hide Markov, Sum, Apply, IsBlock, FromFuture, FutureTerms;
    var F: int -> Mat := b => Markov(M, b - (s - 1 - i));
    forall b | 0 <= b < s
      ensures IsBlock(C, M.p, M.m, s - 1 - i, b, F(b))
    {
      assert MarkovBlock(M, C, s - 1 - i, b);
    }
    ApplyByBlocks(M.p, M.m, s, C, x, s - 1 - i, r, F);
    var f, g := FutureTerms(M, u, i, t, r), BlockProducts(M.m, F, x, r);
    forall b | 0 <= b < s
      ensures g(b) == f(s - 1 - b)
    {
      hide PlanOf;
      PlannedTerm(M, s, x, u, t, i, r, b, F(b));
    }
    SumReverse(s, f, g);
    NoInputAhead(M, u, s, i, t, r);
  }

  lemma PlannedTerm(M: Model, s: nat, x: Vec, u: Signal, t: int, i: int, r: int, b: int, F: Mat)
    requires 0 <= b < s && F == Markov(M, b - (s - 1 - i))
    requires PlanOf(x, M.m, s, u, t)
    ensures Apply(M.m, F, SubVector(x, M.m, b))(r) == FutureTerms(M, u, i, t, r)(s - 1 - b)
  {
    hide Markov;
    assert b - (s - 1 - i) == i - (s - 1 - b);
    ApplyEq(M.m, F, F, r, SubVector(x, M.m, b), Row(u, t + (s - 1 - b)));
  }

  /** Inputs after time t+i do not contribute at t+i. */
  lemma NoInputAhead(M: Model, u: Signal, s: nat, i: int, t: int, r: int)
    requires 0 <= i < s
    ensures Sum(0, s, FutureTerms(M, u, i, t, r)) == FromFuture(M, u, i, t, r)
  {
    var f := FutureTerms(M, u, i, t, r);
    SumSplit(0, i + 1, s, f);
    forall q | i + 1 <= q < s
      ensures f(q) == 0.0
    {
      assert Markov(M, i - q) == Zero();
      ApplyZero(M.m, Zero(), Row(u, t + q), r);
    }
    SumZero(i + 1, s, f);
  }

  /** Block row s-1-i of A*Yp + B*Up + D*Ep + C*Us is the output at time t+i of every trajectory of the
      model that has the stored past, the planned inputs and no further noise. */
  lemma MatricesPredict(M: Model, s: nat, A: Mat, B: Mat, C: Mat, D: Mat,
                        Yp: Vec, Up: Vec, Ep: Vec, Us: Vec, y: Signal, u: Signal, e: Signal, t: int, i: int, r: int)
    requires M.na >= 1 && M.nb >= 1
    requires 0 <= i < s && 0 <= r < M.p
    requires PredictsWith(M, s, A, B, C, D)
    requires WindowOf(Yp, M.p, M.na, y, t) && WindowOf(Up, M.m, M.nb, u, t) && WindowOf(Ep, M.p, M.nc, e, t)
    requires PlanOf(Us, M.m, s, u, t)
    requires Trajectory(M, y, u, e, t, s - 1)
    ensures y(t + i, r) == Apply(M.p * M.na, A, Yp)(Blk(M.p, s - 1 - i, r))
                         + Apply(M.m * M.nb, B, Up)(Blk(M.p, s - 1 - i, r))
                         + Apply(M.p * M.nc, D, Ep)(Blk(M.p, s - 1 - i, r))
                         + Apply(M.m * s, C, Us)(Blk(M.p, s - 1 - i, r))
  {
    assert Trajectory(M, y, u, e, t, i);
    Prediction(M, y, u, e, t, i, r);
    hide FromPast, FromFuture, Trajectory, HoldsChannel, HoldsMarkov, WindowOf, PlanOf, Sum, Apply;
    PastProduct(M, Output, s, A, Yp, y, t, i, r);
    PastProduct(M, Input, s, B, Up, u, t, i, r);
    PastProduct(M, Noise, s, D, Ep, e, t, i, r);
    PlannedProduct(M, s, C, Us, u, t, i, r);
  }
}

// The s-step predictor of utils/GPC.c: the block recursion that unrolls an ARX/ARMAX model, and the
// proof that it predicts every trajectory of the model.
module PredictionTheory {
  import opened LinearAlgebra
  import opened Sums

  /** y(t) = sum of Alpha_j*y(t-1-j) + Beta_j*u(t-1-j) + Gamma_j*e(t-1-j), plus Direct*u(t) when direct == 1.
      The coefficients lie side by side in theta. */
  datatype Model = Model(na: nat, nb: nat, nc: nat, p: nat, m: nat, direct: nat, theta: Mat)

  datatype Channel = Output | Input | Noise

  ghost function Width(M: Model, ch: Channel): nat {
    if ch.Input? then M.m else M.p
  }

  ghost function Count(M: Model, ch: Channel): nat {
    match ch
    case Output => M.na
    case Input => M.nb
    case Noise => M.nc
  }

  /** The first column of theta that belongs to the channel. */
  ghost function Offset(M: Model, ch: Channel): int {
    match ch
    case Output => 0
    case Input => M.p * M.na + M.direct * M.m
    case Noise => M.p * M.na + M.direct * M.m + M.m * M.nb
  }

  /** The coefficient that multiplies the sample of the channel taken 1+j steps ago. */
  ghost function Coefficient(M: Model, ch: Channel, j: int): Mat {
    (r, c) => M.theta(r, Offset(M, ch) + Width(M, ch) * j + c)
  }

  ghost function Direct(M: Model): Mat {
    (r, c) => if M.direct == 1 then M.theta(r, M.p * M.na + c) else 0.0
  }

  ghost function Zero(): Mat {
    (r, c) => 0.0
  }

  ghost function Plus(A: Mat, B: Mat): Mat {
    (i, j) => A(i, j) + B(i, j)
  }

  /** Block j of row block i of the prediction matrix of the channel. */
  ghost function Block(M: Model, ch: Channel, i: int, j: int): Mat
    decreases i, 0
  {
    if i <= 0 then Coefficient(M, ch, j)
    else
      Plus(Product(M.p, Block(M, Output, i - 1, 0), Coefficient(M, ch, j)), Next(M, ch, i - 1, j))
  }

  /** The block to the right, and zero beyond the last one. */
  ghost function Next(M: Model, ch: Channel, i: int, j: int): Mat
    decreases i, 1
  {
    if j < Count(M, ch) - 1 then Block(M, ch, i, j + 1) else Zero()
  }

  /** The response of the output to the input given i steps earlier. */
  ghost function Markov(M: Model, i: int): Mat {
    if i < 0 then Zero()
    else if i == 0 then Direct(M)
    else Plus(Product(M.p, Block(M, Output, i - 1, 0), Direct(M)), Block(M, Input, i - 1, 0))
  }

  // ----- trajectories

  /** A signal: time, component. */
  type Signal = Mat

  ghost function PastTerm(M: Model, ch: Channel, w: Signal, i: int, t: int, r: int, j: int): real {
    Apply(Width(M, ch), Block(M, ch, i, j), Row(w, t - 1 - j))(r)
  }

  ghost function PastTerms(M: Model, ch: Channel, w: Signal, i: int, t: int, r: int): Vec {
    j => PastTerm(M, ch, w, i, t, r, j)
  }

  /** What the samples of a channel before time t contribute to output r at time t+i. */
  ghost function FromPast(M: Model, ch: Channel, w: Signal, i: int, t: int, r: int): real {
    Sum(0, Count(M, ch), PastTerms(M, ch, w, i, t, r))
  }

  /** The same for the step at time t itself, for all outputs. */
  ghost function Present(M: Model, ch: Channel, w: Signal, t: int): Vec {
    r => FromPast(M, ch, w, 0, t, r)
  }

  ghost function AllPast(M: Model, y: Signal, u: Signal, e: Signal, i: int, t: int, r: int): real {
    FromPast(M, Output, y, i, t, r) + FromPast(M, Input, u, i, t, r) + FromPast(M, Noise, e, i, t, r)
  }

  ghost function FutureTerms(M: Model, u: Signal, i: int, t: int, r: int): Vec {
    q => Apply(M.m, Markov(M, i - q), Row(u, t + q))(r)
  }

  /** What the inputs at times t..t+i contribute to output r at time t+i. */
  ghost function FromFuture(M: Model, u: Signal, i: int, t: int, r: int): real {
    Sum(0, i + 1, FutureTerms(M, u, i, t, r))
  }

  /** The i-step-ahead prediction of output r at time t. */
  ghost function Predicted(M: Model, y: Signal, u: Signal, e: Signal, i: int, t: int, r: int): real {
    AllPast(M, y, u, e, i, t, r) + FromFuture(M, u, i, t, r)
  }

  /** What the model makes of the samples before time t and the input at t. */
  ghost function NextOutput(M: Model, y: Signal, u: Signal, e: Signal, t: int, r: int): real {
    AllPast(M, y, u, e, 0, t, r) + Apply(M.m, Direct(M), Row(u, t))(r)
  }

  /** The model equation at time t, for output r. */
  ghost predicate Equation(M: Model, y: Signal, u: Signal, e: Signal, t: int, r: int) {
    y(t, r) == NextOutput(M, y, u, e, t, r)
  }

  ghost predicate EquationsAt(M: Model, y: Signal, u: Signal, e: Signal, t: int) {
    forall r :: 0 <= r < M.p ==> Equation(M, y, u, e, t, r)
  }

  ghost predicate QuietAt(M: Model, e: Signal, t: int) {
    forall c :: 0 <= c < M.p ==> e(t, c) == 0.0
  }

  /** The model equation holds at the steps t..t+i, with no noise from t on. */
  ghost predicate Trajectory(M: Model, y: Signal, u: Signal, e: Signal, t: int, i: int) {
    forall k :: t <= k <= t + i ==> EquationsAt(M, y, u, e, k) && QuietAt(M, e, k)
  }

  // ----- linear algebra of the recursion

  lemma ApplyPlus(n: int, A: Mat, B: Mat, x: Vec, i: int)
    ensures Apply(n, Plus(A, B), x)(i) == Apply(n, A, x)(i) + Apply(n, B, x)(i)
  {
    ApplySum(n, i, 1.0, A, 1.0, B, Plus(A, B), x);
  }

  /** (A*F + N)*x == A*(F*x) + N*x. */
  lemma ApplyStep(q: int, n: int, A: Mat, F: Mat, N: Mat, x: Vec, r: int)
    ensures Apply(n, Plus(Product(q, A, F), N), x)(r) == Apply(q, A, Apply(n, F, x))(r) + Apply(n, N, x)(r)
  {
    ApplyPlus(n, Product(q, A, F), N, x, r);
    ApplyProduct(q, n, A, F, x, r);
  }

  /** A*(sum of v_j) is the sum of A*v_j. */
  lemma ApplyOfSum(q: int, n: int, A: Mat, r: int, v: Mat, images: Vec, total: Vec)
    requires forall j :: 0 <= j < n ==> images(j) == Apply(q, A, Row(v, j))(r)
    requires forall k :: 0 <= k < q ==> total(k) == Sum(0, n, Column(v, k))
    ensures Apply(q, A, total)(r) == Sum(0, n, images)
  {
    var F: Mat := (j, k) => A(r, k) * v(j, k);
    forall j | 0 <= j < n
      ensures images(j) == RowSums(0, q, F)(j)
    {
      SumEq(0, q, RowTimes(A, r, Row(v, j)), k => F(j, k));
    }
    SumEq(0, n, images, RowSums(0, q, F));
    forall k | 0 <= k < q
      ensures RowTimes(A, r, total)(k) == ColumnSums(0, n, F)(k)
    {
      SumScale(0, n, A(r, k), Column(v, k), j => F(j, k));
    }
    SumEq(0, q, RowTimes(A, r, total), ColumnSums(0, n, F));
    SumSwap(0, n, 0, q, F);
  }

  // ----- one step back in time

  /** What the model makes of the sample of the channel taken 1+j steps before t. */
  ghost function Seen(M: Model, ch: Channel, w: Signal, t: int, j: int): Vec {
    Apply(Width(M, ch), Coefficient(M, ch, j), Row(w, t - 1 - j))
  }

  ghost function AllSeen(M: Model, ch: Channel, w: Signal, t: int): Mat {
    (j, k) => Seen(M, ch, w, t, j)(k)
  }

  /** The same samples, passed on through A. */
  ghost function SeenThrough(M: Model, A: Mat, ch: Channel, w: Signal, t: int, r: int): Vec {
    j => Apply(M.p, A, Seen(M, ch, w, t, j))(r)
  }

  lemma ThroughModel(M: Model, A: Mat, ch: Channel, w: Signal, t: int, r: int)
    ensures Apply(M.p, A, Present(M, ch, w, t))(r) == Sum(0, Count(M, ch), SeenThrough(M, A, ch, w, t, r))
  {
    var v, images, total := AllSeen(M, ch, w, t), SeenThrough(M, A, ch, w, t, r), Present(M, ch, w, t);
    forall j | 0 <= j < Count(M, ch)
      ensures images(j) == Apply(M.p, A, Row(v, j))(r)
    {
      ApplyEq(M.p, A, A, r, Seen(M, ch, w, t, j), Row(v, j));
    }
    forall k | 0 <= k < M.p
      ensures total(k) == Sum(0, Count(M, ch), Column(v, k))
    {
      forall j | 0 <= j < Count(M, ch)
        ensures PastTerms(M, ch, w, 0, t, k)(j) == Column(v, k)(j)
      {
        assert PastTerm(M, ch, w, 0, t, k, j) == Seen(M, ch, w, t, j)(k);
      }
      SumEq(0, Count(M, ch), PastTerms(M, ch, w, 0, t, k), Column(v, k));
    }
    ApplyOfSum(M.p, Count(M, ch), A, r, v, images, total);
  }

  /** The term of the sample taken exactly at time t, seen from t+1. */
  ghost function NewestTerm(M: Model, ch: Channel, w: Signal, i: int, t: int, r: int): real {
    if Count(M, ch) == 0 then 0.0 else Apply(Width(M, ch), Block(M, ch, i, 0), Row(w, t))(r)
  }

  ghost function TermAfter(M: Model, ch: Channel, w: Signal, i: int, t: int, r: int, j: int): real {
    if j < Count(M, ch) - 1 then PastTerm(M, ch, w, i - 1, t + 1, r, j + 1) else 0.0
  }

  /** One block of the recursion, applied to one sample. */
  lemma SplitBlock(M: Model, ch: Channel, w: Signal, i: int, t: int, r: int, j: int)
    requires i >= 1 && 0 <= j < Count(M, ch)
    ensures PastTerm(M, ch, w, i, t, r, j)
         == Apply(M.p, Block(M, Output, i - 1, 0), Seen(M, ch, w, t, j))(r) + TermAfter(M, ch, w, i, t, r, j)
  {
    var k, x := Width(M, ch), Row(w, t - 1 - j);
    ApplyStep(M.p, k, Block(M, Output, i - 1, 0), Coefficient(M, ch, j), Next(M, ch, i - 1, j), x, r);
    assert t + 1 - 1 - (j + 1) == t - 1 - j;
    if j >= Count(M, ch) - 1 {
      ApplyZero(k, Zero(), x, r);
    }
  }

  /** Seen from one step later, the newest sample is traded for the same sample seen through the model. */
  lemma ShiftOrigin(M: Model, ch: Channel, w: Signal, i: int, t: int, r: int)
    requires i >= 1
    ensures FromPast(M, ch, w, i, t, r) + NewestTerm(M, ch, w, i - 1, t, r)
         == FromPast(M, ch, w, i - 1, t + 1, r)
            + Apply(M.p, Block(M, Output, i - 1, 0), Present(M, ch, w, t))(r)
  {
    var n, A := Count(M, ch), Block(M, Output, i - 1, 0);
    ThroughModel(M, A, ch, w, t, r);
    if n > 0 {
      SplitAll(M, ch, w, i, t, r);
      TradeTerms(n, PastTerms(M, ch, w, i, t, r), SeenThrough(M, A, ch, w, t, r), PastTerms(M, ch, w, i - 1, t + 1, r));
      NewestIsFirst(M, ch, w, i - 1, t, r);
    }
  }

  /** Each term of `now` is a term of `through` plus the following term of `later`. */
  ghost predicate Trades(n: int, now: Vec, through: Vec, later: Vec) {
    forall j :: 0 <= j < n ==> TradesAt(n, now, through, later, j)
  }

  ghost predicate TradesAt(n: int, now: Vec, through: Vec, later: Vec, j: int) {
    now(j) == through(j) + if j < n - 1 then later(j + 1) else 0.0
  }

  lemma SplitAll(M: Model, ch: Channel, w: Signal, i: int, t: int, r: int)
    requires i >= 1
    ensures Trades(Count(M, ch), PastTerms(M, ch, w, i, t, r),
                   SeenThrough(M, Block(M, Output, i - 1, 0), ch, w, t, r), PastTerms(M, ch, w, i - 1, t + 1, r))
  {
    var n := Count(M, ch);
    var now, later := PastTerms(M, ch, w, i, t, r), PastTerms(M, ch, w, i - 1, t + 1, r);
    var through := SeenThrough(M, Block(M, Output, i - 1, 0), ch, w, t, r);
    forall j | 0 <= j < n
      ensures TradesAt(n, now, through, later, j)
    {
      SplitBlock(M, ch, w, i, t, r, j);
    }
  }

  lemma NewestIsFirst(M: Model, ch: Channel, w: Signal, i: int, t: int, r: int)
    requires Count(M, ch) > 0
    ensures NewestTerm(M, ch, w, i, t, r) == PastTerms(M, ch, w, i, t + 1, r)(0)
  {
  }

  ghost function Successor(f: Vec): Vec {
    j => f(j + 1)
  }

  lemma TradeTerms(n: nat, now: Vec, through: Vec, later: Vec)
    requires n > 0
    requires Trades(n, now, through, later)
    ensures Sum(0, n, now) + later(0) == Sum(0, n, later) + Sum(0, n, through)
  {
    var next := Successor(later);
    forall j | 0 <= j < n - 1
      ensures now(j) == through(j) + next(j)
    {
      assert TradesAt(n, now, through, later, j);
    }
    assert TradesAt(n, now, through, later, n - 1);
    SumAdd(0, n - 1, through, next, now);
    SumShift(0, n - 1, 1, later, next);
    SumFirst(0, n, later);
  }

  // ----- the prediction

  lemma FutureShift(M: Model, u: Signal, i: int, t: int, r: int)
    requires i >= 1
    ensures FromFuture(M, u, i, t, r)
         == Apply(M.m, Markov(M, i), Row(u, t))(r) + FromFuture(M, u, i - 1, t + 1, r)
  {
    SumFirst(0, i + 1, FutureTerms(M, u, i, t, r));
    var next := FutureTerms(M, u, i - 1, t + 1, r);
    forall q | 0 <= q < i
      ensures next(q) == FutureTerms(M, u, i, t, r)(q + 1)
    {
      ApplyEq(M.m, Markov(M, i - 1 - q), Markov(M, i - (q + 1)), r, Row(u, t + 1 + q), Row(u, t + (q + 1)));
    }
    SumShift(0, i, 1, FutureTerms(M, u, i, t, r), next);
    ApplyEq(M.m, Markov(M, i - 0), Markov(M, i), r, Row(u, t + 0), Row(u, t));
  }

  lemma FutureNow(M: Model, u: Signal, t: int, r: int)
    ensures FromFuture(M, u, 0, t, r) == Apply(M.m, Direct(M), Row(u, t))(r)
  {
    var f := FutureTerms(M, u, 0, t, r);
    assert Sum(0, 1, f) == Sum(0, 0, f) + f(0);
    ApplyEq(M.m, Markov(M, 0), Direct(M), r, Row(u, t + 0), Row(u, t));
  }

  /** A*y(t), expanded with the model equation at t. */
  lemma NewestOutput(M: Model, A: Mat, y: Signal, u: Signal, e: Signal, t: int, r: int)
    requires EquationsAt(M, y, u, e, t)
    ensures Apply(M.p, A, Row(y, t))(r)
         == Apply(M.p, A, Present(M, Output, y, t))(r) + Apply(M.p, A, Present(M, Input, u, t))(r)
            + Apply(M.p, A, Present(M, Noise, e, t))(r) + Apply(M.p, A, Apply(M.m, Direct(M), Row(u, t)))(r)
  {
    var a, b, c, d := Present(M, Output, y, t), Present(M, Input, u, t), Present(M, Noise, e, t),
      Apply(M.m, Direct(M), Row(u, t));
    forall k | 0 <= k < M.p
      ensures Row(y, t)(k) == a(k) + b(k) + c(k) + d(k)
    {
      assert Equation(M, y, u, e, t, k);
    }
    ApplyFour(M.p, A, r, a, b, c, d, Row(y, t));
  }

  lemma ApplyFour(n: int, A: Mat, r: int, a: Vec, b: Vec, c: Vec, d: Vec, z: Vec)
    requires forall k :: 0 <= k < n ==> z(k) == a(k) + b(k) + c(k) + d(k)
    ensures Apply(n, A, z)(r) == Apply(n, A, a)(r) + Apply(n, A, b)(r) + Apply(n, A, c)(r) + Apply(n, A, d)(r)
  {
    var ab: Vec := k => a(k) + b(k);
    var cd: Vec := k => c(k) + d(k);
    ApplyLinear(n, A, r, 1.0, ab, 1.0, cd, z);
    ApplyLinear(n, A, r, 1.0, a, 1.0, b, ab);
    ApplyLinear(n, A, r, 1.0, c, 1.0, d, cd);
  }

  lemma NewestNoise(M: Model, e: Signal, i: int, t: int, r: int)
    requires QuietAt(M, e, t)
    ensures NewestTerm(M, Noise, e, i, t, r) == 0.0
  {
    SumZero(0, M.p, RowTimes(Block(M, Noise, i, 0), r, Row(e, t)));
  }

  lemma MarkovStep(M: Model, u: Signal, i: int, t: int, r: int)
    requires i >= 1
    ensures Apply(M.m, Markov(M, i), Row(u, t))(r)
         == Apply(M.p, Block(M, Output, i - 1, 0), Apply(M.m, Direct(M), Row(u, t)))(r)
            + Apply(M.m, Block(M, Input, i - 1, 0), Row(u, t))(r)
  {
    ApplyStep(M.p, M.m, Block(M, Output, i - 1, 0), Direct(M), Block(M, Input, i - 1, 0), Row(u, t), r);
  }

  /** Moving the origin of a prediction one step back leaves its value unchanged. */
  lemma PredictionStep(M: Model, y: Signal, u: Signal, e: Signal, t: int, i: nat, r: int)
    requires i >= 1 && M.na >= 1 && M.nb >= 1
    requires EquationsAt(M, y, u, e, t) && QuietAt(M, e, t)
    ensures Predicted(M, y, u, e, i - 1, t + 1, r) == Predicted(M, y, u, e, i, t, r)
  {
    hide Sum, Apply, Block, FromPast, Present, FromFuture, EquationsAt, QuietAt;
    var A := Block(M, Output, i - 1, 0);
    ShiftOrigin(M, Output, y, i, t, r);
    ShiftOrigin(M, Input, u, i, t, r);
    ShiftOrigin(M, Noise, e, i, t, r);
    assert NewestTerm(M, Output, y, i - 1, t, r) == Apply(M.p, A, Row(y, t))(r);
    NewestOutput(M, A, y, u, e, t, r);
    NewestNoise(M, e, i - 1, t, r);
    FutureShift(M, u, i, t, r);
    MarkovStep(M, u, i, t, r);
  }

  lemma PredictionNow(M: Model, y: Signal, u: Signal, e: Signal, t: int, r: int)
    requires EquationsAt(M, y, u, e, t)
    requires 0 <= r < M.p
    ensures y(t, r) == Predicted(M, y, u, e, 0, t, r)
  {
    assert Equation(M, y, u, e, t, r);
    FutureNow(M, u, t, r);
  }

  /** Every trajectory of the model satisfies the i-step-ahead prediction formula, from any time t on. */
  lemma {:induction false} Prediction(M: Model, y: Signal, u: Signal, e: Signal, t: int, i: nat, r: int)
    requires M.na >= 1 && M.nb >= 1
    requires Trajectory(M, y, u, e, t, i)
    requires 0 <= r < M.p
    ensures y(t + i, r) == Predicted(M, y, u, e, i, t, r)
    decreases i
  {
    hide Predicted, EquationsAt, QuietAt;
    if i == 0 {
      PredictionNow(M, y, u, e, t, r);
    } else {
      Prediction(M, y, u, e, t + 1, i - 1, r);
      assert t + 1 + (i - 1) == t + i;
      assert EquationsAt(M, y, u, e, t) && QuietAt(M, e, t);
      PredictionStep(M, y, u, e, t, i, r);
    }
  }
}

// What the least-squares step of utils/GPC.c is fitted to: its regressors are windows of the recorded signals, so that
// its prediction errors are the residuals of the model equation that the controller predicts with.
module Identification {
  import opened LinearAlgebra
  import opened Sums
  import opened BlockMatrices
  import opened Windows
  import opened LeastSquares
  import opened PredictionTheory

  /** The window of the regressor at base holds the last n samples of the history. */
  ghost predicate InWindow(phi: Vec, base: int, w: int, n: int, history: seq<seq<real>>) {
    forall j, c :: 0 <= j < n && 0 <= c < w ==> phi(Slot(base, w, j, c)) == Past(history, j, c)
  }

  ghost predicate Regressor(phi: Vec, p: int, na: int, m: int, nb: int, ys: seq<seq<real>>, us: seq<seq<real>>) {
    InWindow(phi, 0, p, na, ys) && InWindow(phi, p * na, m, nb, us)
  }

  /** The regressor of sample k was the window of the first times[k] recorded outputs and inputs. */
  ghost predicate Recorded(p: int, na: int, m: int, nb: int, data: seq<Sample>, times: seq<nat>,
                           outputs: seq<seq<real>>, inputs: seq<seq<real>>) {
    && |outputs| == |inputs| && |times| == |data|
    && forall k :: 0 <= k < |data| ==> RecordedAt(p, na, m, nb, data[k].phi, times[k], outputs, inputs)
  }

  ghost predicate RecordedAt(p: int, na: int, m: int, nb: int, phi: Vec, t: nat,
                             outputs: seq<seq<real>>, inputs: seq<seq<real>>)
    requires |outputs| == |inputs|
  {
    t <= |outputs| && Regressor(phi, p, na, m, nb, outputs[..t], inputs[..t])
  }

  lemma NothingRecorded(p: int, na: int, m: int, nb: int)
    ensures Recorded(p, na, m, nb, [], [], [], [])
  {
  }

  lemma WindowIsRegressor(v: seq<real>, p: int, na: int, m: int, nb: int, outputs: seq<seq<real>>,
                          inputs: seq<seq<real>>)
    requires Holds(v, 0, p, na, outputs) && Holds(v, p * na, m, nb, inputs) && |outputs| == |inputs|
    ensures RecordedAt(p, na, m, nb, AsVec(v), |outputs|, outputs, inputs)
  {
    assert outputs[..|outputs|] == outputs && inputs[..|inputs|] == inputs;
    SlotsAreInWindow(v, 0, p, na, outputs);
    SlotsAreInWindow(v, p * na, m, nb, inputs);
  }

  lemma SlotsAreInWindow(v: seq<real>, base: int, w: int, n: int, history: seq<seq<real>>)
    requires Holds(v, base, w, n, history)
    ensures InWindow(AsVec(v), base, w, n, history)
  {
    forall j, c | 0 <= j < n && 0 <= c < w
      ensures AsVec(v)(Slot(base, w, j, c)) == Past(history, j, c)
    {
      assert SlotHolds(v, base, w, history, j, c);
    }
  }

  /** Recording further samples does not touch the regressors of the past. */
  lemma MoreRecorded(p: int, na: int, m: int, nb: int, data: seq<Sample>, times: seq<nat>,
                     outputs: seq<seq<real>>, inputs: seq<seq<real>>, y: seq<real>, u: seq<real>)
    requires Recorded(p, na, m, nb, data, times, outputs, inputs)
    ensures Recorded(p, na, m, nb, data, times, outputs + [y], inputs + [u])
  {
    hide Regressor;
    forall k | 0 <= k < |data|
      ensures RecordedAt(p, na, m, nb, data[k].phi, times[k], outputs + [y], inputs + [u])
    {
      assert RecordedAt(p, na, m, nb, data[k].phi, times[k], outputs, inputs);
      assert (outputs + [y])[..times[k]] == outputs[..times[k]] && (inputs + [u])[..times[k]] == inputs[..times[k]];
    }
  }

  lemma SampleRecorded(p: int, na: int, m: int, nb: int, data: seq<Sample>, times: seq<nat>,
                       outputs: seq<seq<real>>, inputs: seq<seq<real>>, s: Sample)
    requires Recorded(p, na, m, nb, data, times, outputs, inputs)
    requires RecordedAt(p, na, m, nb, s.phi, |outputs|, outputs, inputs)
    ensures Recorded(p, na, m, nb, data + [s], times + [|outputs|], outputs, inputs)
  {
    hide RecordedAt;
  }

  // ----- one-step predictions

  /** The recorded samples as a signal, the first one at time d; zero elsewhere. */
  ghost function Signalled(history: seq<seq<real>>, d: int): Signal {
    (t, c) => if 0 <= t - d < |history| && 0 <= c < |history[t - d]| then history[t - d][c] else 0.0
  }

  lemma PastIsSignal(history: seq<seq<real>>, d: int, t: nat, j: nat, c: nat)
    requires t <= |history|
    ensures Past(history[..t], j, c) == Signalled(history, d)(t - 1 - j + d, c)
  {
  }

  ghost function ShiftedBy(f: Vec, b: int): Vec {
    q => f(b + q)
  }

  /** Entry c of slot j is its coefficient times its sample. */
  ghost predicate ChannelTerm(M: Model, ch: Channel, z: Signal, t: int, i: int, f: Vec, b: int, j: int, c: int) {
    f(Slot(b, Width(M, ch), j, c)) == Coefficient(M, ch, j)(i, c) * z(t - 1 - j, c)
  }

  ghost predicate ChannelTerms(M: Model, ch: Channel, z: Signal, t: int, i: int, f: Vec, b: int) {
    forall j, c :: 0 <= j < Count(M, ch) && 0 <= c < Width(M, ch) ==> ChannelTerm(M, ch, z, t, i, f, b, j, c)
  }

  /** The part of the regressor that belongs to one channel, times its coefficients. */
  lemma ChannelSum(M: Model, ch: Channel, z: Signal, t: int, i: int, f: Vec, b: int, b': int)
    requires ChannelTerms(M, ch, z, t, i, f, b) && b' == b + Width(M, ch) * Count(M, ch)
    ensures Sum(b, b', f) == FromPast(M, ch, z, 0, t, i)
  {
    var w, n, g := Width(M, ch), Count(M, ch), ShiftedBy(f, b);
    hide ChannelTerm, Sum;
    SumShift(0, w * n, b, f, g);
    SumByBlocks(w, n, g);
    forall j | 0 <= j < n
      ensures BlockSums(w, g)(j) == PastTerms(M, ch, z, 0, t, i)(j)
    {
      SlotSum(M, ch, z, t, i, f, b, j);
    }
    SumEq(0, n, BlockSums(w, g), PastTerms(M, ch, z, 0, t, i));
  }

  lemma SlotSum(M: Model, ch: Channel, z: Signal, t: int, i: int, f: Vec, b: int, j: int)
    requires forall c :: 0 <= c < Width(M, ch) ==> ChannelTerm(M, ch, z, t, i, f, b, j, c)
    ensures BlockSums(Width(M, ch), ShiftedBy(f, b))(j) == PastTerms(M, ch, z, 0, t, i)(j)
  {
    var w, g := Width(M, ch), ShiftedBy(f, b);
    var u, v := SubVector(g, w, j), RowTimes(Coefficient(M, ch, j), i, Row(z, t - 1 - j));
    hide Width, Coefficient, Sum;
    forall c | 0 <= c < w
      ensures u(c) == v(c)
    {
      assert ChannelTerm(M, ch, z, t, i, f, b, j, c);
      assert Slot(b, w, j, c) == b + Blk(w, j, c);
    }
    SumEq(0, w, u, v);
  }

  /** theta*phi is the one-step prediction of the model whose coefficients are theta: the regressor holds the outputs,
      the inputs and the errors of the last steps in this order. */
  lemma RegressorPredicts(M: Model, phi: Vec, t: nat, i: int, outputs: seq<seq<real>>, inputs: seq<seq<real>>,
                          errors: seq<seq<real>>)
    requires M.direct <= 1 && t <= |outputs| == |inputs| == |errors|
    requires RecordedAt(M.p, M.na, M.m, M.nb + M.direct, phi, t, outputs, inputs)
    requires InWindow(phi, M.p * M.na + M.m * (M.nb + M.direct), M.p, M.nc, errors[..t])
    ensures Dot(M.p * M.na + M.m * (M.nb + M.direct) + M.p * M.nc, phi, Row(M.theta, i))
         == NextOutput(M, Signalled(outputs, 0), Signalled(inputs, M.direct), Signalled(errors, 0), t, i)
  {
    hide RecordedAt, Signalled, Sum, ChannelTerms, Apply, NextOutput, FromPast, InWindow;
    var b, f := M.p * M.na + M.m * (M.nb + M.direct), Times(phi, Row(M.theta, i));
    ErrorTerms(M, phi, t, i, errors, b, f);
    RegressorSum(M, phi, t, i, outputs, inputs, Signalled(errors, 0), M.p * M.na, M.p * M.na + M.direct * M.m, b,
                 b + M.p * M.nc, f);
  }

  /** In particular when the regressor is the vector that ARMAX_UpdatePhi keeps. */
  lemma ArmaxRegressorPredicts(M: Model, v: seq<real>, i: int, outputs: seq<seq<real>>, inputs: seq<seq<real>>,
                               errors: seq<seq<real>>)
    requires M.direct <= 1 && |outputs| == |inputs| == |errors|
    requires |v| == M.p * M.na + M.m * (M.nb + M.direct) + M.p * M.nc
    requires Holds(v, 0, M.p, M.na, outputs) && Holds(v, M.p * M.na, M.m, M.nb + M.direct, inputs)
    requires Holds(v, M.p * M.na + M.m * (M.nb + M.direct), M.p, M.nc, errors)
    ensures Dot(|v|, AsVec(v), Row(M.theta, i))
         == NextOutput(M, Signalled(outputs, 0), Signalled(inputs, M.direct), Signalled(errors, 0), |outputs|, i)
  {
    assert errors[..|outputs|] == errors;
    WindowIsRegressor(v, M.p, M.na, M.m, M.nb + M.direct, outputs, inputs);
    SlotsAreInWindow(v, M.p * M.na + M.m * (M.nb + M.direct), M.p, M.nc, errors);
    hide Holds, RecordedAt, InWindow, NextOutput, Dot;
    RegressorPredicts(M, AsVec(v), |outputs|, i, outputs, inputs, errors);
  }

  lemma RegressorSum(M: Model, phi: Vec, t: nat, i: int, outputs: seq<seq<real>>, inputs: seq<seq<real>>, e: Signal,
                     a: int, d: int, b: int, n: int, f: Vec)
    requires M.direct <= 1 && |outputs| == |inputs|
    requires RecordedAt(M.p, M.na, M.m, M.nb + M.direct, phi, t, outputs, inputs) && f == Times(phi, Row(M.theta, i))
    requires a == M.p * M.na && d == a + M.direct * M.m && b == a + M.m * (M.nb + M.direct) && n == b + M.p * M.nc
    requires ChannelTerms(M, Noise, e, t, i, f, b)
    ensures Sum(0, n, f) == NextOutput(M, Signalled(outputs, 0), Signalled(inputs, M.direct), e, t, i)
  {
    var y, u := Signalled(outputs, 0), Signalled(inputs, M.direct);
    Extents(M, a, d, b, n);
    hide RecordedAt, Signalled, Sum, ChannelTerms, Apply, FromPast, Times, Row, Width, Count, Direct;
    OutputTerms(M, phi, t, i, outputs, inputs, f);
    InputTerms(M, phi, t, i, outputs, inputs, a, d, f);
    DirectTerms(M, phi, t, i, outputs, inputs, a, d, f);
    ChannelSum(M, Output, y, t, i, f, 0, a);
    ChannelSum(M, Input, u, t, i, f, d, b);
    ChannelSum(M, Noise, e, t, i, f, b, n);
    SumSplit(0, a, n, f);
    SumSplit(a, d, n, f);
    SumSplit(d, b, n, f);
  }

  lemma Extents(M: Model, a: int, d: int, b: int, n: int)
    requires a == M.p * M.na && d == a + M.direct * M.m && b == a + M.m * (M.nb + M.direct) && n == b + M.p * M.nc
    ensures 0 <= a <= d <= b == d + Width(M, Input) * Count(M, Input) && a == Width(M, Output) * Count(M, Output)
    ensures b <= n == b + Width(M, Noise) * Count(M, Noise)
  {
    assert M.m * (M.nb + M.direct) == M.m * M.nb + M.direct * M.m;
  }

  lemma ErrorTerms(M: Model, phi: Vec, t: nat, i: int, errors: seq<seq<real>>, b: int, f: Vec)
    requires t <= |errors| && f == Times(phi, Row(M.theta, i)) && b == M.p * M.na + M.m * (M.nb + M.direct)
    requires InWindow(phi, b, M.p, M.nc, errors[..t])
    ensures ChannelTerms(M, Noise, Signalled(errors, 0), t, i, f, b)
  {
    assert b == Offset(M, Noise) by { Extents(M, M.p * M.na, M.p * M.na + M.direct * M.m, b, b + M.p * M.nc); }
    forall j, c | 0 <= j < M.nc && 0 <= c < M.p
      ensures ChannelTerm(M, Noise, Signalled(errors, 0), t, i, f, b, j, c)
    {
      PastIsSignal(errors, 0, t, j, c);
      assert phi(Slot(b, M.p, j, c)) == Past(errors[..t], j, c);
      assert Slot(b, M.p, j, c) == Offset(M, Noise) + M.p * j + c;
    }
  }

  lemma OutputTerms(M: Model, phi: Vec, t: nat, i: int, outputs: seq<seq<real>>, inputs: seq<seq<real>>, f: Vec)
    requires |outputs| == |inputs| && f == Times(phi, Row(M.theta, i))
    requires RecordedAt(M.p, M.na, M.m, M.nb + M.direct, phi, t, outputs, inputs)
    ensures ChannelTerms(M, Output, Signalled(outputs, 0), t, i, f, 0)
  {
    forall j, c | 0 <= j < M.na && 0 <= c < M.p
      ensures ChannelTerm(M, Output, Signalled(outputs, 0), t, i, f, 0, j, c)
    {
      PastIsSignal(outputs, 0, t, j, c);
      assert phi(Slot(0, M.p, j, c)) == Past(outputs[..t], j, c);
      assert Slot(0, M.p, j, c) == Offset(M, Output) + M.p * j + c;
    }
  }

  /** With direct transmission the newest input of the window is the present one. */
  lemma InputTerms(M: Model, phi: Vec, t: nat, i: int, outputs: seq<seq<real>>, inputs: seq<seq<real>>,
                   a: int, b: int, f: Vec)
    requires M.direct <= 1 && |outputs| == |inputs| && f == Times(phi, Row(M.theta, i))
    requires RecordedAt(M.p, M.na, M.m, M.nb + M.direct, phi, t, outputs, inputs)
    requires a == M.p * M.na && b == a + M.direct * M.m
    ensures ChannelTerms(M, Input, Signalled(inputs, M.direct), t, i, f, b)
  {
    forall j, c | 0 <= j < M.nb && 0 <= c < M.m
      ensures ChannelTerm(M, Input, Signalled(inputs, M.direct), t, i, f, b, j, c)
    {
      var k := j + M.direct;
      PastIsSignal(inputs, M.direct, t, k, c);
      NextSlot(a, M.m, M.direct, j, c);
      assert phi(Slot(a, M.m, k, c)) == Past(inputs[..t], k, c);
      assert Slot(b, M.m, j, c) == Offset(M, Input) + M.m * j + c;
    }
  }

  lemma NextSlot(a: int, w: int, d: int, j: int, c: int)
    ensures Slot(a, w, j + d, c) == Slot(a + d * w, w, j, c)
  {
  }

  lemma DirectTerms(M: Model, phi: Vec, t: nat, i: int, outputs: seq<seq<real>>, inputs: seq<seq<real>>,
                    a: int, b: int, f: Vec)
    requires M.direct <= 1 && |outputs| == |inputs| && f == Times(phi, Row(M.theta, i))
    requires RecordedAt(M.p, M.na, M.m, M.nb + M.direct, phi, t, outputs, inputs)
    requires a == M.p * M.na && b == a + M.direct * M.m
    ensures Sum(a, b, f) == Apply(M.m, Direct(M), Row(Signalled(inputs, M.direct), t))(i)
  {
    var x := Row(Signalled(inputs, M.direct), t);
    if M.direct == 0 {
      ApplyZero(M.m, Direct(M), x, i);
    } else {
      var g := RowTimes(Direct(M), i, x);
      forall c | 0 <= c < M.m
        ensures g(c) == f(c + a)
      {
        PastIsSignal(inputs, 1, t, 0, c);
        assert phi(Slot(a, M.m, 0, c)) == Past(inputs[..t], 0, c);
        assert Slot(a, M.m, 0, c) == c + a;
      }
      SumShift(0, M.m, a, f, g);
    }
  }

  /** Without noise terms the errors do not matter. */
  lemma NoErrors(M: Model, phi: Vec, t: nat, i: int, outputs: seq<seq<real>>, inputs: seq<seq<real>>, n: int)
    requires M.direct <= 1 && M.nc == 0 && |outputs| == |inputs| && n == M.p * M.na + M.m * (M.nb + M.direct)
    requires RecordedAt(M.p, M.na, M.m, M.nb + M.direct, phi, t, outputs, inputs)
    ensures Dot(n, phi, Row(M.theta, i))
         == NextOutput(M, Signalled(outputs, 0), Signalled(inputs, M.direct), SILENCE, t, i)
  {
    hide RecordedAt, Signalled, Sum, Apply, NextOutput, FromPast;
    var a, f := M.p * M.na, Times(phi, Row(M.theta, i));
    assert M.p * M.nc == 0 && ChannelTerms(M, Noise, SILENCE, t, i, f, n);
    RegressorSum(M, phi, t, i, outputs, inputs, SILENCE, a, a + M.direct * M.m, n, n, f);
  }

  // ----- the cost of a whole run

  /** The squared error of the one-step prediction of every processed sample, by the model M. */
  ghost function OneStepErrors(M: Model, data: seq<Sample>, times: seq<nat>, y: Signal, u: Signal, i: int): Vec
    requires |times| == |data|
  {
    k => if 0 <= k < |data| then SquaredError(data[k].y(i), NextOutput(M, y, u, SILENCE, times[k], i)) else 0.0
  }

  ghost const SILENCE: Signal := (t, c) => 0.0

  /** The squared one-step errors of a model over the recorded signals, plus the penalty on its parameters. */
  ghost function OneStepCost(M: Model, n: int, delta: real, w0: Vec, data: seq<Sample>, times: seq<nat>,
                             outputs: seq<seq<real>>, inputs: seq<seq<real>>, i: int): real
    requires delta != 0.0 && |times| == |data|
  {
    var d := Minus(Row(M.theta, i), w0);
    1.0 / delta * Dot(n, d, d)
    + Sum(0, |data|, OneStepErrors(M, data, times, Signalled(outputs, 0), Signalled(inputs, M.direct), i))
  }

  /** The normal equations make the model the best one-step predictor of its size for the recorded signals. */
  lemma BestOneStep(M: Model, M': Model, n: int, delta: real, theta0: Mat, data: seq<Sample>, times: seq<nat>,
                    outputs: seq<seq<real>>, inputs: seq<seq<real>>, i: int)
    requires delta > 0.0 && M.direct <= 1 && M.nc == 0 && n == M.p * M.na + M.m * (M.nb + M.direct) && 0 <= i < M.p
    requires M' == M.(theta := M'.theta)
    requires Recorded(M.p, M.na, M.m, M.nb + M.direct, data, times, outputs, inputs)
    requires PositiveDefinite(n, Information(1.0, delta, data))
    requires NormalEquations(n, M.p, M.theta, theta0, 1.0, delta, data)
    ensures OneStepCost(M, n, delta, Row(theta0, i), data, times, outputs, inputs, i)
         <= OneStepCost(M', n, delta, Row(theta0, i), data, times, outputs, inputs, i)
    ensures (exists j :: 0 <= j < n && M'.theta(i, j) != M.theta(i, j)) ==>
      OneStepCost(M, n, delta, Row(theta0, i), data, times, outputs, inputs, i)
      < OneStepCost(M', n, delta, Row(theta0, i), data, times, outputs, inputs, i)
  {
    hide Recorded, PositiveDefinite, NormalEquations, Information, Signalled, OneStepErrors, Cost, Dot, Sum;
    var w0, w, v := Row(theta0, i), Row(M.theta, i), Row(M'.theta, i);
    CostIsOneStepErrors(M, n, delta, w0, w, data, times, outputs, inputs, i);
    CostIsOneStepErrors(M', n, delta, w0, v, data, times, outputs, inputs, i);
    ParametersMinimiseCost(n, M.p, delta, theta0, M.theta, data, i, v);
  }

  /** The penalised cost of least squares is the sum of the squared one-step errors over the recorded signals. */
  lemma CostIsOneStepErrors(M: Model, n: int, delta: real, w0: Vec, w: Vec, data: seq<Sample>, times: seq<nat>,
                            outputs: seq<seq<real>>, inputs: seq<seq<real>>, i: int)
    requires delta != 0.0 && M.direct <= 1 && M.nc == 0 && n == M.p * M.na + M.m * (M.nb + M.direct)
    requires Recorded(M.p, M.na, M.m, M.nb + M.direct, data, times, outputs, inputs) && w == Row(M.theta, i)
    ensures Cost(n, delta, w0, data, i, w)
         == 1.0 / delta * Dot(n, Minus(w, w0), Minus(w, w0))
            + Sum(0, |data|, OneStepErrors(M, data, times, Signalled(outputs, 0), Signalled(inputs, M.direct), i))
  {
    CostOfFirst(M, n, delta, w0, w, data, times, outputs, inputs, i, |data|);
    assert data[..|data|] == data;
  }

  lemma {:induction false} CostOfFirst(
      M: Model, n: int, delta: real, w0: Vec, w: Vec, data: seq<Sample>, times: seq<nat>,
      outputs: seq<seq<real>>, inputs: seq<seq<real>>, i: int, k: nat)
    requires delta != 0.0 && M.direct <= 1 && M.nc == 0 && n == M.p * M.na + M.m * (M.nb + M.direct)
    requires Recorded(M.p, M.na, M.m, M.nb + M.direct, data, times, outputs, inputs) && w == Row(M.theta, i)
    requires k <= |data|
    ensures Cost(n, delta, w0, data[..k], i, w)
         == 1.0 / delta * Dot(n, Minus(w, w0), Minus(w, w0))
            + Sum(0, k, OneStepErrors(M, data, times, Signalled(outputs, 0), Signalled(inputs, M.direct), i))
  {
    hide NextOutput, RecordedAt, Dot, Minus, SquaredError;
    if k > 0 {
      CostOfFirst(M, n, delta, w0, w, data, times, outputs, inputs, i, k - 1);
      assert data[..k][..k - 1] == data[..k - 1] && data[..k][k - 1] == data[k - 1];
      NoErrors(M, data[k - 1].phi, times[k - 1], i, outputs, inputs, n);
    }
  }
}

// What a whole run of recursive least squares amounts to: the information matrix accumulated from
// the data, the normal equations, and the cost that the parameters minimise.
module LeastSquares {
  import opened LinearAlgebra
  import opened Sums
  import opened RlsTheory

  /** A regressor and the output measured with it. */
  datatype Sample = Sample(phi: Vec, y: Vec)

  /** mu^N/delta*I + sum of mu^(N-k)*phi_k*phi_k'. */
  ghost function Information(mu: real, delta: real, data: seq<Sample>): Mat
    requires delta != 0.0
  {
    if data == [] then ScaledIdentity(1.0 / delta)
    else InformationStep(mu, data[|data| - 1].phi, Information(mu, delta, data[..|data| - 1]))
  }

  ghost function Pow(mu: real, k: int): real {
    if k <= 0 then 1.0 else mu * Pow(mu, k - 1)
  }

  /** A value after k more samples. */
  ghost function Fade(mu: real, k: int, x: real): real {
    Pow(mu, k) * x
  }

  /** A value after one more sample. */
  ghost function Forget(mu: real, x: real): real {
    mu * x
  }

  lemma FadeStep(mu: real, k: nat, x: real)
    ensures Fade(mu, k + 1, x) == Forget(mu, Fade(mu, k, x))
  {
    Associate(mu, Pow(mu, k), x);
  }

  lemma FadeNow(mu: real, x: real)
    ensures Fade(mu, 0, x) == x
  {
  }

  ghost function Product2(phi: Vec, i: int, j: int): real {
    phi(i) * phi(j)
  }

  /** What sample k contributes to entry (i, j) after |data| samples. */
  ghost function Faded(mu: real, data: seq<Sample>, i: int, j: int): Vec {
    k => if 0 <= k < |data| then Fade(mu, |data| - 1 - k, Product2(data[k].phi, i, j)) else 0.0
  }

  /** In closed form: older samples fade with the powers of mu. */
  lemma {:induction false} InformationIs(mu: real, delta: real, data: seq<Sample>, i: int, j: int)
    requires delta != 0.0
    ensures Information(mu, delta, data)(i, j)
         == Fade(mu, |data|, ScaledIdentity(1.0 / delta)(i, j)) + Sum(0, |data|, Faded(mu, data, i, j))
  {
    var d := ScaledIdentity(1.0 / delta)(i, j);
    hide Information, Fade, Product2, Faded, Sum, ScaledIdentity, Forget;
    if data == [] {
      FadeNow(mu, d);
      InformationNone(mu, delta);
      NothingSummed(Faded(mu, data, i, j));
    } else {
      var n, rest := |data| - 1, data[..|data| - 1];
      InformationIs(mu, delta, rest, i, j);
      InformationNext(mu, delta, data, i, j);
      FadedNext(mu, data, i, j);
      FadeStep(mu, n, d);
      ForgetSum(mu, Fade(mu, n, d), Sum(0, n, Faded(mu, rest, i, j)));
    }
  }

  lemma ForgetSum(mu: real, a: real, b: real)
    ensures Forget(mu, a + b) == Forget(mu, a) + Forget(mu, b)
  {
  }

  lemma InformationNone(mu: real, delta: real)
    requires delta != 0.0
    ensures Information(mu, delta, []) == ScaledIdentity(1.0 / delta)
  {
  }

  lemma InformationNext(mu: real, delta: real, data: seq<Sample>, i: int, j: int)
    requires delta != 0.0 && data != []
    ensures Information(mu, delta, data)(i, j)
         == Forget(mu, Information(mu, delta, data[..|data| - 1])(i, j)) + Product2(data[|data| - 1].phi, i, j)
  {
  }

  lemma FadedNext(mu: real, data: seq<Sample>, i: int, j: int)
    requires data != []
    ensures Sum(0, |data|, Faded(mu, data, i, j))
         == Forget(mu, Sum(0, |data| - 1, Faded(mu, data[..|data| - 1], i, j))) + Product2(data[|data| - 1].phi, i, j)
  {
    hide Faded, Product2, Sum, Forget;
    FadedLast(mu, data, i, j);
    ScaledSum(mu, |data| - 1, data, data[..|data| - 1], i, j);
    SumNext(|data| - 1, Faded(mu, data, i, j));
  }

  lemma ScaledSum(mu: real, n: nat, data: seq<Sample>, rest: seq<Sample>, i: int, j: int)
    requires n == |data| - 1 && rest == data[..n]
    ensures Sum(0, n, Faded(mu, data, i, j)) == Forget(mu, Sum(0, n, Faded(mu, rest, i, j)))
  {
    var f, g := Faded(mu, data, i, j), Faded(mu, rest, i, j);
    hide Faded, Sum, Forget;
    forall k | 0 <= k < n
      ensures f(k) == Forget(mu, g(k))
    {
      FadedAt(mu, data, i, j, k);
    }
    ForgetTerms(mu, n, f, g);
  }

  lemma ForgetTerms(mu: real, n: nat, f: Vec, g: Vec)
    requires forall k :: 0 <= k < n ==> f(k) == Forget(mu, g(k))
    ensures Sum(0, n, f) == Forget(mu, Sum(0, n, g))
  {
    SumScale(0, n, mu, g, f);
  }

  lemma FadedLast(mu: real, data: seq<Sample>, i: int, j: int)
    requires data != []
    ensures Faded(mu, data, i, j)(|data| - 1) == Product2(data[|data| - 1].phi, i, j)
  {
    hide Fade, Product2;
    FadeNow(mu, Product2(data[|data| - 1].phi, i, j));
  }

  lemma FadedAt(mu: real, data: seq<Sample>, i: int, j: int, k: int)
    requires 0 <= k < |data| - 1
    ensures Faded(mu, data, i, j)(k) == Forget(mu, Faded(mu, data[..|data| - 1], i, j)(k))
  {
    hide Fade, Product2, Forget;
    FadeStep(mu, |data| - 2 - k, Product2(data[k].phi, i, j));
  }

  lemma NothingSummed(f: Vec)
    ensures Sum(0, 0, f) == 0.0
  {
  }

  lemma SumNext(n: nat, f: Vec)
    ensures Sum(0, n + 1, f) == Sum(0, n, f) + f(n)
  {
  }

  /** Row i of theta0/delta + sum of y_k*phi_k'. */
  ghost function Moment(theta0: Mat, delta: real, data: seq<Sample>, i: int): Vec
    requires delta != 0.0
  {
    if data == [] then
      j => theta0(i, j) / delta
    else
      var last, rest := data[|data| - 1], Moment(theta0, delta, data[..|data| - 1], i);
      j => rest(j) + last.y(i) * last.phi(j)
  }

  /** theta*Q equals the moments: the normal equations, output by output. */
  ghost predicate NormalEquations(n: int, p: int, theta: Mat, theta0: Mat, mu: real, delta: real, data: seq<Sample>)
    requires delta != 0.0
  {
    forall i :: 0 <= i < p ==>
      Solves(n, Information(mu, delta, data), Row(theta, i), Moment(theta0, delta, data, i))
  }

  // ----- the initial state

  lemma ScaledIdentityDefinite(n: int, a: real)
    requires a > 0.0
    ensures PositiveDefinite(n, ScaledIdentity(a)) && Symmetric(n, ScaledIdentity(a))
  {
    forall x: Vec | NonZero(n, x)
      ensures Quad(n, ScaledIdentity(a), x) > 0.0
    {
      var y := Apply(n, ScaledIdentity(a), x);
      forall i | 0 <= i < n
        ensures y(i) == a * x(i) + 0.0 * x(i)
      {
        ApplyScaledIdentity(n, a, x, i);
      }
      DotLinear(n, x, a, x, 0.0, x, y);
      DotSelf(n, x);
      PositiveProduct(a, Dot(n, x, x), a * Dot(n, x, x));
    }
  }

  lemma ScaledIdentityInverse(n: int, a: real, b: real)
    requires a * b == 1.0
    ensures LeftInverse(n, ScaledIdentity(a), ScaledIdentity(b))
  {
    forall x: Vec, i | 0 <= i < n
      ensures Apply(n, ScaledIdentity(a), Apply(n, ScaledIdentity(b), x))(i) == x(i)
    {
      ApplyScaledIdentity(n, b, x, i);
      ApplyScaledIdentity(n, a, Apply(n, ScaledIdentity(b), x), i);
      Associate(a, b, x(i));
    }
  }

  /** ARX_Initialize: P = delta*I is consistent with no data. */
  lemma InitialConsistent(n: int, mu: real, delta: real)
    requires delta > 0.0
    ensures Consistent(n, ScaledIdentity(delta), Information(mu, delta, []))
  {
    var d := 1.0 / delta;
    assert d * delta == 1.0;
    PositiveInverse(delta, d);
    ScaledIdentityDefinite(n, delta);
    ScaledIdentityDefinite(n, d);
    ScaledIdentityInverse(n, delta, d);
    ScaledIdentityInverse(n, d, delta);
  }

  lemma PositiveInverse(a: real, b: real)
    requires a > 0.0 && a * b == 1.0
    ensures b > 0.0
  {
  }

  lemma InitialNormal(n: int, p: int, theta0: Mat, mu: real, delta: real)
    requires delta > 0.0
    ensures NormalEquations(n, p, theta0, theta0, mu, delta, [])
  {
    forall i, j | 0 <= i < p && 0 <= j < n
      ensures Apply(n, Information(mu, delta, []), Row(theta0, i))(j) == Moment(theta0, delta, [], i)(j)
    {
      ApplyScaledIdentity(n, 1.0 / delta, Row(theta0, i), j);
    }
  }

  // ----- one step of the normal equations

  /** The part of a step that forgetting leaves unbalanced. */
  ghost function Correction(mu: real, e: real, d: real, f: real): real
    requires d != 0.0
  {
    (1.0 - mu) * (e / d) * f
  }

  /** Component j of Q*w, for row i of theta: what the step makes of it, for any forgetting factor. */
  lemma MomentStep(n: int, p: int, mu: real, phi: Vec, y: Vec, P: Mat, Q: Mat, theta: Mat, theta': Mat, i: int, j: int)
    requires 0 <= i < p && 0 <= j < n
    requires 1.0 + Power(n, P, phi) != 0.0
    requires LeftInverse(n, Q, P)
    requires ParameterStep(n, p, phi, y, P, theta, theta')
    ensures Apply(n, InformationStep(mu, phi, Q), Row(theta', i))(j)
         == mu * Apply(n, Q, Row(theta, i))(j) + y(i) * phi(j)
            - Correction(mu, Innovation(n, theta, phi, y, i), 1.0 + Power(n, P, phi), phi(j))
  {
    hide Sum, Apply, Dot, Correction, InformationStep;
    var g, r, e := Gain(n, P, phi), Power(n, P, phi), Innovation(n, theta, phi, y, i);
    var k := e / (1.0 + r);
    var w, w' := Row(theta, i), Row(theta', i);
    forall q | 0 <= q < n
      ensures w'(q) == 1.0 * w(q) + k * g(q)
    {
      ParameterRow(n, phi, y, P, theta, theta', i, q);
    }
    ApplyLinear(n, Q, j, 1.0, w, k, g, w');
    assert Apply(n, Q, g)(j) == phi(j);
    DotLinear(n, phi, 1.0, w, k, g, w');
    RowDot(n, theta, phi, i);
    ApplyInformation(n, mu, phi, Q, w', j);
    MomentArithmetic(mu, r, e, k, Apply(n, Q, w)(j), phi(j), Dot(n, phi, w), y(i),
      Apply(n, Q, w')(j), Dot(n, phi, w'), Apply(n, InformationStep(mu, phi, Q), w')(j));
  }

  lemma ParameterRow(n: int, phi: Vec, y: Vec, P: Mat, theta: Mat, theta': Mat, i: int, q: int)
    requires 1.0 + Power(n, P, phi) != 0.0 && ParameterAt(n, phi, y, P, theta, theta', i, q)
    ensures theta'(i, q)
         == theta(i, q) + Innovation(n, theta, phi, y, i) / (1.0 + Power(n, P, phi)) * Gain(n, P, phi)(q)
  {
  }

  lemma RowDot(n: int, theta: Mat, phi: Vec, i: int)
    ensures Apply(n, theta, phi)(i) == Dot(n, phi, Row(theta, i))
  {
    SumEq(0, n, RowTimes(theta, i, phi), Times(phi, Row(theta, i)));
  }

  lemma MomentArithmetic(mu: real, r: real, e: real, k: real, m: real, f: real, a: real, y: real,
                         m': real, a': real, result: real)
    requires 1.0 + r != 0.0 && k == e / (1.0 + r) && e == y - a
    requires m' == m + k * f && a' == a + k * r && result == mu * m' + a' * f
    ensures result == mu * m + y * f - Correction(mu, e, 1.0 + r, f)
  {
  }

  /** With forgetting, the parameters keep the exponentially weighted normal equations through a step
      exactly when nothing is forgotten or the step has nothing to correct. */
  lemma WeightedNormalEquationsKept(n: int, p: int, mu: real, phi: Vec, y: Vec,
                                    P: Mat, Q: Mat, theta: Mat, theta': Mat)
    requires 1.0 + Power(n, P, phi) != 0.0
    requires LeftInverse(n, Q, P)
    requires ParameterStep(n, p, phi, y, P, theta, theta')
    ensures (forall i, j :: 0 <= i < p && 0 <= j < n ==> WeightedMomentKept(n, mu, phi, y, Q, theta, theta', i, j))
       <==> mu == 1.0 || forall i, j :: 0 <= i < p && 0 <= j < n ==>
                           Innovation(n, theta, phi, y, i) == 0.0 || phi(j) == 0.0
  {
    forall i, j | 0 <= i < p && 0 <= j < n
      ensures WeightedMomentKept(n, mu, phi, y, Q, theta, theta', i, j)
         <==> mu == 1.0 || Innovation(n, theta, phi, y, i) == 0.0 || phi(j) == 0.0
    {
      MomentStep(n, p, mu, phi, y, P, Q, theta, theta', i, j);
      var e, d := Innovation(n, theta, phi, y, i), 1.0 + Power(n, P, phi);
      VanishingCorrection(mu, e, d, phi(j));
    }
  }

  /** Component (i, j) of theta'*Q' == mu*theta*Q + y*phi'. */
  ghost predicate WeightedMomentKept(n: int, mu: real, phi: Vec, y: Vec, Q: Mat, theta: Mat, theta': Mat, i: int,
                                     j: int) {
    Apply(n, InformationStep(mu, phi, Q), Row(theta', i))(j) == mu * Apply(n, Q, Row(theta, i))(j) + y(i) * phi(j)
  }

  ghost function Constant(a: real): Vec {
    i => a
  }

  /** With one output, one regressor entry and P = 1, a step from theta = 0 on phi = y = 1 gives theta = 1/2 for every
      mu, which meets the weighted normal equations for none but mu = 1. */
  lemma ForgettingFails(mu: real)
    requires mu != 1.0
    ensures var one, x, P := Constant(1.0), ScaledIdentity(0.0), ScaledIdentity(1.0);
      && LeftInverse(1, P, P) && Power(1, P, one) == 1.0
      && ParameterStep(1, 1, one, one, P, x, ScaledIdentity(0.5))
      && !WeightedMomentKept(1, mu, one, one, P, x, ScaledIdentity(0.5), 0, 0)
  {
    hide Apply, Dot, Sum;
    var one, x, x', P := Constant(1.0), ScaledIdentity(0.0), ScaledIdentity(0.5), ScaledIdentity(1.0);
    ScaledIdentityInverse(1, 1.0, 1.0);
    ApplyScaledIdentity(1, 1.0, one, 0);
    ApplyScaledIdentity(1, 0.0, one, 0);
    SingleDot(one, Gain(1, P, one));
    assert ParameterAt(1, one, one, P, x, x', 0, 0);
    WeightedNormalEquationsKept(1, 1, mu, one, one, P, P, x, x');
  }

  lemma SingleDot(x: Vec, y: Vec)
    ensures Dot(1, x, y) == x(0) * y(0)
  {
    SumSingle(0, 1, 0, Times(x, y));
  }

  lemma VanishingCorrection(mu: real, e: real, d: real, f: real)
    requires d != 0.0
    ensures Correction(mu, e, d, f) == 0.0 <==> mu == 1.0 || e == 0.0 || f == 0.0
  {
  }

  // ----- a whole run

  /** thetas and Ps are the states before, between and after the steps of ARX_RLS on the given data. */
  ghost predicate Run(n: int, p: int, mu: real, delta: real, theta0: Mat, data: seq<Sample>, thetas: seq<Mat>,
                      Ps: seq<Mat>) {
    && |thetas| == |Ps| == |data| + 1
    && thetas[0] == theta0 && Ps[0] == ScaledIdentity(delta)
    && forall k :: 0 <= k < |data| ==> StepTaken(n, p, mu, data[k], thetas[k], Ps[k], thetas[k + 1], Ps[k + 1])
  }

  ghost predicate StepTaken(n: int, p: int, mu: real, s: Sample, theta: Mat, P: Mat, theta': Mat, P': Mat) {
    && mu != 0.0 && 1.0 + Power(n, P, s.phi) != 0.0 && Power(n, P, s.phi) + mu != 0.0
    && ParameterStep(n, p, s.phi, s.y, P, theta, theta')
    && CovarianceStep(n, mu, s.phi, P, P')
  }

  /** After any number of steps P is the inverse of the information matrix of the data seen, both are
      symmetric positive definite, and without forgetting the normal equations hold. */
  lemma {:induction false} RunInvariant(n: int, p: int, mu: real, delta: real, theta0: Mat, data: seq<Sample>,
                                        thetas: seq<Mat>, Ps: seq<Mat>, k: nat)
    requires mu > 0.0 && delta > 0.0
    requires Run(n, p, mu, delta, theta0, data, thetas, Ps)
    requires k <= |data|
    ensures Consistent(n, Ps[k], Information(mu, delta, data[..k]))
    ensures mu == 1.0 ==> NormalEquations(n, p, thetas[k], theta0, mu, delta, data[..k])
    decreases k
  {
    if k == 0 {
      InitialConsistent(n, mu, delta);
      InitialNormal(n, p, theta0, mu, delta);
    } else {
      RunInvariant(n, p, mu, delta, theta0, data, thetas, Ps, k - 1);
      assert StepTaken(n, p, mu, data[k - 1], thetas[k - 1], Ps[k - 1], thetas[k], Ps[k]);
      assert data[..k] == data[..k - 1] + [data[k - 1]];
      RunStep(n, p, mu, delta, theta0, data[..k - 1], data[k - 1], thetas[k - 1], Ps[k - 1], thetas[k], Ps[k]);
    }
  }

  lemma RunStep(n: int, p: int, mu: real, delta: real, theta0: Mat, data: seq<Sample>, s: Sample,
                theta: Mat, P: Mat, theta': Mat, P': Mat)
    requires mu > 0.0 && delta > 0.0
    requires Consistent(n, P, Information(mu, delta, data))
    requires StepTaken(n, p, mu, s, theta, P, theta', P')
    ensures Consistent(n, P', Information(mu, delta, data + [s]))
    ensures mu == 1.0 && NormalEquations(n, p, theta, theta0, mu, delta, data)
        ==> NormalEquations(n, p, theta', theta0, mu, delta, data + [s])
  {
    var Q := Information(mu, delta, data);
    assert (data + [s])[..|data|] == data;
    assert Information(mu, delta, data + [s]) == InformationStep(mu, s.phi, Q);
    StepKeepsConsistent(n, mu, s.phi, P, Q, P');
    if mu == 1.0 && NormalEquations(n, p, theta, theta0, mu, delta, data) {
      forall i, j | 0 <= i < p && 0 <= j < n
        ensures Apply(n, InformationStep(mu, s.phi, Q), Row(theta', i))(j) == Moment(theta0, delta, data + [s], i)(j)
      {
        MomentStep(n, p, mu, s.phi, s.y, P, Q, theta, theta', i, j);
        assert Solves(n, Q, Row(theta, i), Moment(theta0, delta, data, i));
      }
    }
  }

  // ----- least squares

  /** The squared prediction errors of output i with parameters w, plus the weighted distance from w0. */
  ghost function Cost(n: int, delta: real, w0: Vec, data: seq<Sample>, i: int, w: Vec): real
    requires delta != 0.0
  {
    if data == [] then
      1.0 / delta * Dot(n, Minus(w, w0), Minus(w, w0))
    else
      var last := data[|data| - 1];
      Cost(n, delta, w0, data[..|data| - 1], i, w) + SquaredError(last.y(i), Dot(n, last.phi, w))
  }

  ghost function SquaredError(y: real, prediction: real): real {
    (y - prediction) * (y - prediction)
  }

  /** The first and second order change of the cost when the parameters go from w to w + d. */
  ghost function Change(n: int, delta: real, theta0: Mat, data: seq<Sample>, i: int, w: Vec, d: Vec): real
    requires delta != 0.0
  {
    var Q := Information(1.0, delta, data);
    Quad(n, Q, d) + 2.0 * (Dot(n, d, Apply(n, Q, w)) - Dot(n, d, Moment(theta0, delta, data, i)))
  }

  /** How the cost changes between any two parameter vectors. */
  lemma {:induction false} CostGap(n: int, delta: real, theta0: Mat, data: seq<Sample>, i: int, w: Vec, v: Vec)
    requires delta > 0.0
    ensures Cost(n, delta, Row(theta0, i), data, i, v)
         == Cost(n, delta, Row(theta0, i), data, i, w) + Change(n, delta, theta0, data, i, w, Minus(v, w))
    decreases |data|
  {
    if data == [] {
      InitialCostGap(n, delta, theta0, i, w, v);
    } else {
      var rest, last := data[..|data| - 1], data[|data| - 1];
      CostGap(n, delta, theta0, rest, i, w, v);
      ChangeStep(n, delta, theta0, data, i, w, Minus(v, w));
      DotLinear(n, last.phi, 1.0, w, 1.0, Minus(v, w), v);
      hide Sum, Dot, Change, Information, Moment, SquaredError, ErrorChange;
      ErrorGap(last.y(i), Dot(n, last.phi, w), Dot(n, last.phi, Minus(v, w)), Dot(n, last.phi, v));
    }
  }

  /** What one more sample adds to the change of the cost. */
  lemma ChangeStep(n: int, delta: real, theta0: Mat, data: seq<Sample>, i: int, w: Vec, d: Vec)
    requires delta > 0.0 && data != []
    ensures var rest, last := data[..|data| - 1], data[|data| - 1];
      Change(n, delta, theta0, data, i, w, d) == Change(n, delta, theta0, rest, i, w, d)
        + ErrorChange(last.y(i), Dot(n, last.phi, w), Dot(n, last.phi, d))
  {
    var rest, last := data[..|data| - 1], data[|data| - 1];
    var Q := Information(1.0, delta, rest);
    DotLinear(n, d, 1.0, Moment(theta0, delta, rest, i), last.y(i), last.phi, Moment(theta0, delta, data, i));
    assert Information(1.0, delta, data) == InformationStep(1.0, last.phi, Q);
    hide Sum, Apply, Dot, Information, InformationStep, Moment;
    FormStep(n, last.phi, Q, d, d);
    FormStep(n, last.phi, Q, d, w);
    DotCommutes(n, d, last.phi);
  }

  ghost function ErrorChange(y: real, a: real, b: real): real {
    b * b + 2.0 * (a * b - y * b)
  }

  /** x'Q'y for the information step without forgetting. */
  lemma FormStep(n: int, phi: Vec, Q: Mat, x: Vec, y: Vec)
    ensures Dot(n, x, Apply(n, InformationStep(1.0, phi, Q), y))
         == Dot(n, x, Apply(n, Q, y)) + Dot(n, phi, y) * Dot(n, phi, x)
  {
    var z := Apply(n, InformationStep(1.0, phi, Q), y);
    forall i | 0 <= i < n
      ensures z(i) == 1.0 * Apply(n, Q, y)(i) + Dot(n, phi, y) * phi(i)
    {
      ApplyInformation(n, 1.0, phi, Q, y, i);
    }
    DotLinear(n, x, 1.0, Apply(n, Q, y), Dot(n, phi, y), phi, z);
    DotCommutes(n, x, phi);
  }

  lemma ErrorGap(y: real, a: real, b: real, c: real)
    requires c == a + b
    ensures SquaredError(y, c) == SquaredError(y, a) + ErrorChange(y, a, b)
  {
  }

  lemma InitialCostGap(n: int, delta: real, theta0: Mat, i: int, w: Vec, v: Vec)
    requires delta > 0.0
    ensures Cost(n, delta, Row(theta0, i), [], i, v)
         == Cost(n, delta, Row(theta0, i), [], i, w) + Change(n, delta, theta0, [], i, w, Minus(v, w))
  {
    var w0, q := Row(theta0, i), 1.0 / delta;
    EmptyCost(n, delta, w0, i, v, q);
    EmptyCost(n, delta, w0, i, w, q);
    InitialChange(n, delta, theta0, i, w, Minus(v, w), q);
    EmptyGap(n, q, w0, w, v);
  }

  lemma InitialChange(n: int, delta: real, theta0: Mat, i: int, w: Vec, d: Vec, q: real)
    requires delta > 0.0 && q == 1.0 / delta
    ensures Change(n, delta, theta0, [], i, w, d)
         == q * Dot(n, d, d) + 2.0 * (q * Dot(n, d, w) - q * Dot(n, d, Row(theta0, i)))
  {
    assert Information(1.0, delta, []) == ScaledIdentity(q);
    hide Sum, Apply, Dot, ScaledIdentity, Information, Moment;
    ScaledForm(n, q, d, d);
    ScaledForm(n, q, d, w);
    InitialMoment(n, delta, theta0, i, d, q);
  }

  lemma EmptyGap(n: int, q: real, w0: Vec, w: Vec, v: Vec)
    ensures var d, a, b := Minus(v, w), Minus(v, w0), Minus(w, w0);
      q * Dot(n, a, a) == q * Dot(n, b, b) + (q * Dot(n, d, d) + 2.0 * (q * Dot(n, d, w) - q * Dot(n, d, w0)))
  {
    var d, a, b := Minus(v, w), Minus(v, w0), Minus(w, w0);
    SquareOfSum(n, b, d, a);
    DotLinear(n, d, 1.0, w, -1.0, w0, b);
    hide Dot, Minus;
    InitialArithmetic(q, Dot(n, a, a), Dot(n, b, b), Dot(n, d, d), Dot(n, d, b), Dot(n, d, w), Dot(n, d, w0));
  }

  lemma SquareOfSum(n: int, b: Vec, d: Vec, a: Vec)
    requires forall i :: 0 <= i < n ==> a(i) == b(i) + d(i)
    ensures Dot(n, a, a) == Dot(n, b, b) + 2.0 * Dot(n, d, b) + Dot(n, d, d)
  {
    DotLinear(n, a, 1.0, b, 1.0, d, a);
    DotCommutes(n, a, b);
    DotCommutes(n, a, d);
    DotLinear(n, b, 1.0, b, 1.0, d, a);
    DotLinear(n, d, 1.0, b, 1.0, d, a);
    DotCommutes(n, b, d);
  }

  lemma InitialMoment(n: int, delta: real, theta0: Mat, i: int, d: Vec, q: real)
    requires delta > 0.0 && q == 1.0 / delta
    ensures Dot(n, d, Moment(theta0, delta, [], i)) == q * Dot(n, d, Row(theta0, i))
  {
    var w0 := Row(theta0, i);
    forall j | 0 <= j < n
      ensures Moment(theta0, delta, [], i)(j) == q * w0(j) + 0.0 * w0(j)
    {
      QuotientIs(theta0(i, j), delta, q * theta0(i, j));
    }
    DotLinear(n, d, q, w0, 0.0, w0, Moment(theta0, delta, [], i));
  }

  lemma EmptyCost(n: int, delta: real, w0: Vec, i: int, w: Vec, q: real)
    requires delta != 0.0 && q == 1.0 / delta
    ensures Cost(n, delta, w0, [], i, w) == q * Dot(n, Minus(w, w0), Minus(w, w0))
  {
  }

  lemma InitialArithmetic(q: real, aa: real, bb: real, dd: real, db: real, dw: real, dw0: real)
    requires aa == bb + 2.0 * db + dd && db == dw - dw0
    ensures q * aa == q * bb + (q * dd + 2.0 * (q * dw - q * dw0))
  {
  }

  lemma ScaledForm(n: int, q: real, x: Vec, y: Vec)
    ensures Dot(n, x, Apply(n, ScaledIdentity(q), y)) == q * Dot(n, x, y)
  {
    var z := Apply(n, ScaledIdentity(q), y);
    forall i | 0 <= i < n
      ensures z(i) == q * y(i) + 0.0 * y(i)
    {
      ApplyScaledIdentity(n, q, y, i);
    }
    DotLinear(n, x, q, y, 0.0, y, z);
  }

  /** The identified parameters of every output are the only minimiser of its cost. */
  lemma ParametersMinimiseCost(n: int, p: int, delta: real, theta0: Mat, theta: Mat, data: seq<Sample>, i: int, v: Vec)
    requires delta > 0.0 && 0 <= i < p
    requires PositiveDefinite(n, Information(1.0, delta, data))
    requires NormalEquations(n, p, theta, theta0, 1.0, delta, data)
    ensures Cost(n, delta, Row(theta0, i), data, i, Row(theta, i)) <= Cost(n, delta, Row(theta0, i), data, i, v)
    ensures (exists j :: 0 <= j < n && v(j) != theta(i, j)) ==>
              Cost(n, delta, Row(theta0, i), data, i, Row(theta, i)) < Cost(n, delta, Row(theta0, i), data, i, v)
  {
    var w, Q := Row(theta, i), Information(1.0, delta, data);
    var d := Minus(v, w);
    CostGap(n, delta, theta0, data, i, w, v);
    assert Solves(n, Q, w, Moment(theta0, delta, data, i));
    DotEq(n, d, Apply(n, Q, w), d, Moment(theta0, delta, data, i));
    if exists j :: 0 <= j < n && v(j) != theta(i, j) {
      var j :| 0 <= j < n && v(j) != theta(i, j);
      assert d(j) != 0.0;
      assert NonZero(n, d);
    } else {
      SumZero(0, n, Times(d, Apply(n, Q, d)));
    }
  }
}

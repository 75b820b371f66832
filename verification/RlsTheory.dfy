// Recursive least squares, as ARX_RLS of utils/GPC.c performs it: one step as a relation between
// parameter and covariance matrices, and what every step keeps.
module RlsTheory {
  import opened LinearAlgebra
  import opened Sums

  // ----- matrices that are inverse to each other

  ghost predicate LeftInverse(n: int, P: Mat, Q: Mat) {
    forall x: Vec, i :: 0 <= i < n ==> Apply(n, P, Apply(n, Q, x))(i) == x(i)
  }

  ghost predicate Inverse(n: int, P: Mat, Q: Mat) {
    LeftInverse(n, P, Q) && LeftInverse(n, Q, P)
  }

  // ----- one step

  /** P*phi. */
  ghost function Gain(n: int, P: Mat, phi: Vec): Vec {
    Apply(n, P, phi)
  }

  /** r = phi'*P*phi. */
  ghost function Power(n: int, P: Mat, phi: Vec): real {
    Dot(n, phi, Gain(n, P, phi))
  }

  /** The covariance update: P' = (P - P*phi*(P*phi)'/(r + mu)) / mu. */
  ghost predicate CovarianceStep(n: int, mu: real, phi: Vec, P: Mat, P': Mat)
    requires mu != 0.0 && Power(n, P, phi) + mu != 0.0
  {
    forall i, j :: 0 <= i < n && 0 <= j < n ==> CovarianceAt(n, mu, phi, P, P', i, j)
  }

  ghost predicate CovarianceAt(n: int, mu: real, phi: Vec, P: Mat, P': Mat, i: int, j: int)
    requires mu != 0.0 && Power(n, P, phi) + mu != 0.0
  {
    P'(i, j) == (P(i, j) - Gain(n, P, phi)(i) * Gain(n, P, phi)(j) / (Power(n, P, phi) + mu)) / mu
  }

  /** The prediction error of output i. */
  ghost function Innovation(n: int, theta: Mat, phi: Vec, y: Vec, i: int): real {
    y(i) - Apply(n, theta, phi)(i)
  }

  /** The parameter update: theta' = theta + eps * (P*phi)'/(1 + r). */
  ghost predicate ParameterStep(n: int, p: int, phi: Vec, y: Vec, P: Mat, theta: Mat, theta': Mat)
    requires 1.0 + Power(n, P, phi) != 0.0
  {
    forall i, j :: 0 <= i < p && 0 <= j < n ==> ParameterAt(n, phi, y, P, theta, theta', i, j)
  }

  ghost predicate ParameterAt(n: int, phi: Vec, y: Vec, P: Mat, theta: Mat, theta': Mat, i: int, j: int)
    requires 1.0 + Power(n, P, phi) != 0.0
  {
    theta'(i, j) == theta(i, j) + Innovation(n, theta, phi, y, i) * (Gain(n, P, phi)(j) / (1.0 + Power(n, P, phi)))
  }

  /** The information update: Q' = mu*Q + phi*phi'. */
  ghost function InformationStep(mu: real, phi: Vec, Q: Mat): Mat {
    (i, j) => mu * Q(i, j) + phi(i) * phi(j)
  }

  // ----- positivity

  /** phi'*P*phi is non-negative for every phi, zero or not. */
  lemma PowerNonNegative(n: int, P: Mat, phi: Vec)
    requires PositiveDefinite(n, P)
    ensures Power(n, P, phi) >= 0.0
  {
    if NonZero(n, phi) {
      assert Quad(n, P, phi) > 0.0;
    } else {
      SumZero(0, n, Times(phi, Gain(n, P, phi)));
    }
  }

  lemma ZeroMapsToZero(n: int, Q: Mat, w: Vec, i: int)
    requires forall k :: 0 <= k < n ==> w(k) == 0.0
    ensures Apply(n, Q, w)(i) == 0.0
  {
    SumZero(0, n, RowTimes(Q, i, w));
  }

  /** The inverse of a positive definite matrix is positive definite. */
  lemma InverseDefinite(n: int, P: Mat, Q: Mat)
    requires Inverse(n, P, Q) && PositiveDefinite(n, Q)
    ensures PositiveDefinite(n, P)
  {
    forall x: Vec | NonZero(n, x)
      ensures Quad(n, P, x) > 0.0
    {
      var w := Apply(n, P, x);
      var i :| 0 <= i < n && x(i) != 0.0;
      if forall k :: 0 <= k < n ==> w(k) == 0.0 {
        ZeroMapsToZero(n, Q, w, i);
      }
      assert NonZero(n, w);
      DotEq(n, x, w, Apply(n, Q, w), w);
      DotCommutes(n, Apply(n, Q, w), w);
      assert Quad(n, Q, w) > 0.0;
    }
  }

  /** Q'*x = mu*Q*x + phi*(phi.x). */
  lemma ApplyInformation(n: int, mu: real, phi: Vec, Q: Mat, x: Vec, i: int)
    ensures Apply(n, InformationStep(mu, phi, Q), x)(i) == mu * Apply(n, Q, x)(i) + Dot(n, phi, x) * phi(i)
  {
    var outer: Mat := (i, j) => phi(i) * phi(j);
    ApplySum(n, i, mu, Q, 1.0, outer, InformationStep(mu, phi, Q), x);
    OuterTimes(n, phi, phi, outer, x, i);
  }

  /** Row i of (g*h')*x is g_i * (h.x). */
  lemma OuterTimes(n: int, g: Vec, h: Vec, A: Mat, x: Vec, i: int)
    requires forall j :: 0 <= j < n ==> A(i, j) == g(i) * h(j)
    ensures Apply(n, A, x)(i) == Dot(n, h, x) * g(i)
  {
    var t := RowTimes(A, i, x);
    forall j | 0 <= j < n
      ensures t(j) == g(i) * Times(h, x)(j)
    {
      ProductOfThree(A(i, j), g(i), h(j), x(j));
    }
    SumScale(0, n, g(i), Times(h, x), t);
  }

  lemma ProductOfThree(a: real, g: real, h: real, x: real)
    requires a == g * h
    ensures a * x == g * (h * x)
  {
  }

  lemma InformationDefinite(n: int, mu: real, phi: Vec, Q: Mat)
    requires mu > 0.0 && PositiveDefinite(n, Q)
    ensures PositiveDefinite(n, InformationStep(mu, phi, Q))
  {
    hide Sum, Apply, Dot, InformationStep;
    var Q' := InformationStep(mu, phi, Q);
    forall x: Vec | NonZero(n, x)
      ensures Quad(n, Q', x) > 0.0
    {
      var c := Dot(n, phi, x);
      forall i | 0 <= i < n
        ensures Apply(n, Q', x)(i) == mu * Apply(n, Q, x)(i) + c * phi(i)
      {
        ApplyInformation(n, mu, phi, Q, x, i);
      }
      DotLinear(n, x, mu, Apply(n, Q, x), c, phi, Apply(n, Q', x));
      DotCommutes(n, x, phi);
      var q, cc := Quad(n, Q, x), c * c;
      Square(c, cc);
      PositiveProduct(mu, q, mu * q);
    }
  }

  lemma InformationSymmetric(n: int, mu: real, phi: Vec, Q: Mat)
    requires Symmetric(n, Q)
    ensures Symmetric(n, InformationStep(mu, phi, Q))
  {
  }

  // ----- the covariance step inverts the information step

  ghost function Outer(g: Vec): Mat {
    (i, j) => g(i) * g(j)
  }

  lemma CovarianceEntry(n: int, mu: real, phi: Vec, P: Mat, P': Mat, i: int, j: int)
    requires mu != 0.0 && Power(n, P, phi) + mu != 0.0
    requires CovarianceAt(n, mu, phi, P, P', i, j)
    ensures var d := Power(n, P, phi) + mu;
      d * mu != 0.0 && P'(i, j) == 1.0 / mu * P(i, j) + -1.0 / (d * mu) * Outer(Gain(n, P, phi))(i, j)
  {
  }

  lemma CovarianceSymmetric(n: int, mu: real, phi: Vec, P: Mat, P': Mat)
    requires mu != 0.0 && Power(n, P, phi) + mu != 0.0
    requires Symmetric(n, P) && CovarianceStep(n, mu, phi, P, P')
    ensures Symmetric(n, P')
  {
    forall i, j | 0 <= i < n && 0 <= j < n
      ensures P'(i, j) == P'(j, i)
    {
      CovarianceEntry(n, mu, phi, P, P', i, j);
      CovarianceEntry(n, mu, phi, P, P', j, i);
      OuterSymmetric(Gain(n, P, phi), i, j);
    }
  }

  lemma OuterSymmetric(g: Vec, i: int, j: int)
    ensures Outer(g)(i, j) == Outer(g)(j, i)
  {
  }

  lemma OuterRow(n: int, g: Vec, z: Vec, i: int)
    ensures Apply(n, Outer(g), z)(i) == Dot(n, g, z) * g(i)
  {
    OuterTimes(n, g, g, Outer(g), z, i);
  }

  ghost function Downdate(mu: real, r: real, pz: real, g: real, s: real): real
    requires mu != 0.0 && r + mu != 0.0
  {
    (pz - g * (s / (r + mu))) / mu
  }

  /** P'*z = (P*z - P*phi*((P*phi).z)/(r + mu)) / mu. */
  lemma ApplyCovariance(n: int, mu: real, phi: Vec, P: Mat, P': Mat, z: Vec, i: int)
    requires 0 <= i < n
    requires mu != 0.0 && Power(n, P, phi) + mu != 0.0
    requires CovarianceStep(n, mu, phi, P, P')
    ensures var g, r := Gain(n, P, phi), Power(n, P, phi);
      Apply(n, P', z)(i) == Downdate(mu, r, Apply(n, P, z)(i), g(i), Dot(n, g, z))
  {
    hide Sum, Apply, Dot, Outer;
    var g, d := Gain(n, P, phi), Power(n, P, phi) + mu;
    NonZeroProduct(d, mu);
    var a, b := 1.0 / mu, -1.0 / (d * mu);
    forall j | 0 <= j < n
      ensures P'(i, j) == a * P(i, j) + b * Outer(g)(i, j)
    {
      CovarianceEntry(n, mu, phi, P, P', i, j);
    }
    ApplySum(n, i, a, P, b, Outer(g), P', z);
    OuterRow(n, g, z, i);
    JoinEntry(mu, d, Apply(n, P, z)(i), g(i), Dot(n, g, z));
  }

  lemma NonZeroProduct(a: real, b: real)
    requires a != 0.0 && b != 0.0
    ensures a * b != 0.0
  {
  }

  lemma QuotientIs(x: real, d: real, q: real)
    requires d != 0.0 && q * d == x
    ensures x / d == q
  {
  }

  lemma JoinEntry(mu: real, d: real, e: real, g: real, s: real)
    requires mu != 0.0 && d != 0.0
    ensures d * mu != 0.0
    ensures 1.0 / mu * e + -1.0 / (d * mu) * (s * g) == (e - g * (s / d)) / mu
  {
  }

  lemma LeftInverseStep(n: int, mu: real, phi: Vec, P: Mat, Q: Mat, P': Mat)
    requires mu != 0.0 && Power(n, P, phi) + mu != 0.0
    requires Symmetric(n, P) && LeftInverse(n, P, Q) && CovarianceStep(n, mu, phi, P, P')
    ensures LeftInverse(n, P', InformationStep(mu, phi, Q))
  {
    hide Sum, Apply, Dot, Downdate, CovarianceStep, InformationStep, Symmetric;
    var Q' := InformationStep(mu, phi, Q);
    var g, r := Gain(n, P, phi), Power(n, P, phi);
    forall x: Vec, i | 0 <= i < n
      ensures Apply(n, P', Apply(n, Q', x))(i) == x(i)
    {
      var z, c, q := Apply(n, Q', x), Dot(n, phi, x), Apply(n, Q, x);
      forall j | 0 <= j < n
        ensures z(j) == mu * q(j) + c * phi(j)
      {
        ApplyInformation(n, mu, phi, Q, x, j);
      }
      ApplyLinear(n, P, i, mu, q, c, phi, z);
      assert Apply(n, P, q)(i) == x(i);
      DotLinear(n, g, mu, q, c, phi, z);
      DotCommutes(n, g, phi);
      SelfAdjoint(n, P, phi, q);
      DotEq(n, phi, Apply(n, P, q), phi, x);
      assert Dot(n, g, z) == mu * c + c * r;
      ApplyCovariance(n, mu, phi, P, P', z, i);
      CancelUpdate(mu, r, c, g(i), x(i), Dot(n, g, z), Apply(n, P, z)(i), Apply(n, P', z)(i));
    }
  }

  lemma CancelUpdate(mu: real, r: real, c: real, g: real, x: real, s: real, pz: real, result: real)
    requires mu != 0.0 && r + mu != 0.0 && s == mu * c + c * r
    requires pz == mu * x + c * g && result == Downdate(mu, r, pz, g, s)
    ensures result == x
  {
    QuotientIs(s, r + mu, c);
    QuotientIs(mu * x, mu, x);
    assert mu * x + c * g - g * c == mu * x;
  }

  lemma RightInverseStep(n: int, mu: real, phi: Vec, P: Mat, Q: Mat, P': Mat)
    requires mu != 0.0 && Power(n, P, phi) + mu != 0.0
    requires Symmetric(n, P) && LeftInverse(n, Q, P) && CovarianceStep(n, mu, phi, P, P')
    ensures LeftInverse(n, InformationStep(mu, phi, Q), P')
  {
    hide Apply, CovarianceStep, InformationStep, Symmetric;
    forall x: Vec, i | 0 <= i < n
      ensures Apply(n, InformationStep(mu, phi, Q), Apply(n, P', x))(i) == x(i)
    {
      assert Apply(n, Q, Apply(n, P, x))(i) == x(i) && Apply(n, Q, Apply(n, P, phi))(i) == phi(i);
      RightInverseRow(n, mu, phi, P, Q, P', x, i);
    }
  }

  lemma RightInverseRow(n: int, mu: real, phi: Vec, P: Mat, Q: Mat, P': Mat, x: Vec, i: int)
    requires 0 <= i < n && mu != 0.0 && Power(n, P, phi) + mu != 0.0
    requires Symmetric(n, P) && CovarianceStep(n, mu, phi, P, P')
    requires Apply(n, Q, Apply(n, P, x))(i) == x(i) && Apply(n, Q, Gain(n, P, phi))(i) == phi(i)
    ensures Apply(n, InformationStep(mu, phi, Q), Apply(n, P', x))(i) == x(i)
  {
    hide Sum, Apply, Dot, CovarianceStep, InformationStep, Symmetric;
    var g, r, s := Gain(n, P, phi), Power(n, P, phi), Dot(n, Gain(n, P, phi), x);
    forall j | 0 <= j < n
      ensures Apply(n, P', x)(j) == 1.0 / mu * Apply(n, P, x)(j) + -(s / (r + mu)) / mu * g(j)
    {
      ApplyCovariance(n, mu, phi, P, P', x, j);
      DivideDifference(mu, Apply(n, P, x)(j), g(j), s / (r + mu));
    }
    SelfAdjoint(n, P, phi, x);
    CombinedRow(n, mu, phi, Q, Apply(n, P, x), g, Apply(n, P', x), x, i, 1.0 / mu, -(s / (r + mu)) / mu, r, s);
  }

  lemma CombinedRow(n: int, mu: real, phi: Vec, Q: Mat, u: Vec, g: Vec, w: Vec, x: Vec, i: int,
                    a: real, b: real, r: real, s: real)
    requires 0 <= i < n && mu != 0.0 && r + mu != 0.0 && a == 1.0 / mu && b == -(s / (r + mu)) / mu
    requires forall j :: 0 <= j < n ==> w(j) == a * u(j) + b * g(j)
    requires Apply(n, Q, u)(i) == x(i) && Apply(n, Q, g)(i) == phi(i)
    requires Dot(n, phi, u) == s && Dot(n, phi, g) == r
    ensures Apply(n, InformationStep(mu, phi, Q), w)(i) == x(i)
  {
    hide Sum, Apply, Dot, InformationStep;
    ApplyLinear(n, Q, i, a, u, b, g, w);
    DotLinear(n, phi, a, u, b, g, w);
    ApplyInformation(n, mu, phi, Q, w, i);
    CancelInformation(mu, r, s, a, b, x(i), phi(i), Apply(n, Q, w)(i), Dot(n, phi, w),
                      Apply(n, InformationStep(mu, phi, Q), w)(i));
  }

  lemma DivideDifference(mu: real, e: real, g: real, q: real)
    requires mu != 0.0
    ensures (e - g * q) / mu == 1.0 / mu * e + -q / mu * g
  {
  }

  lemma CancelInformation(mu: real, r: real, s: real, a: real, b: real, x: real, f: real,
                          qw: real, fw: real, result: real)
    requires mu != 0.0 && r + mu != 0.0 && a == 1.0 / mu && b == -(s / (r + mu)) / mu
    requires qw == a * x + b * f && fw == a * s + b * r && result == mu * qw + fw * f
    ensures result == x
  {
  }

  // ----- what every step keeps

  /** P is symmetric positive definite and is the inverse of the symmetric positive definite Q. */
  ghost predicate Consistent(n: int, P: Mat, Q: Mat) {
    Symmetric(n, P) && Symmetric(n, Q) && PositiveDefinite(n, P) && PositiveDefinite(n, Q) && Inverse(n, P, Q)
  }

  /** The divisors of a step are positive, and the step keeps P the inverse of the information matrix. */
  lemma StepKeepsConsistent(n: int, mu: real, phi: Vec, P: Mat, Q: Mat, P': Mat)
    requires mu > 0.0 && Consistent(n, P, Q)
    ensures 1.0 + Power(n, P, phi) > 0.0 && Power(n, P, phi) + mu > 0.0
    ensures CovarianceStep(n, mu, phi, P, P') ==> Consistent(n, P', InformationStep(mu, phi, Q))
  {
    PowerNonNegative(n, P, phi);
    if CovarianceStep(n, mu, phi, P, P') {
      var Q' := InformationStep(mu, phi, Q);
      CovarianceSymmetric(n, mu, phi, P, P');
      InformationSymmetric(n, mu, phi, Q);
      LeftInverseStep(n, mu, phi, P, Q, P');
      RightInverseStep(n, mu, phi, P, Q, P');
      InformationDefinite(n, mu, phi, Q);
      InverseDefinite(n, P', Q');
    }
  }
}

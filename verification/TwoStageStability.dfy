// Stability of the two-stage methods of utils/dae-intg.cc on the test equation x' = growth*x, with complex growth and
// x: no step of a decaying or oscillating mode may grow.
module TwoStageStability {
  import Sums
  import opened DaeCoefficients
  import opened TwoStageCoefficients

  datatype Complex = Complex(re: real, im: real)

  function Mul(a: Complex, b: Complex): Complex {
    Complex(a.re * b.re - a.im * b.im, a.re * b.im + a.im * b.re)
  }

  function Scale(k: real, a: Complex): Complex {
    Complex(k * a.re, k * a.im)
  }

  /** The square of the absolute value. */
  function Norm2(a: Complex): real {
    a.re * a.re + a.im * a.im
  }

  /** x and xz are a step of the method from xm1 on the test equation. */
  ghost predicate TestStep(c: TwoStage, dt: real, growth: Complex, xm1: Complex, xz: Complex, x: Complex) {
    var p1, pz, p0 := Mul(growth, xm1), Mul(growth, xz), Mul(growth, x);
    && x == Complex(StepX(c, dt, xm1.re, p1.re, pz.re, p0.re), StepX(c, dt, xm1.im, p1.im, pz.im, p0.im))
    && xz == Complex(StepXz(c, dt, x.re, xm1.re, p1.re, p0.re), StepXz(c, dt, x.im, xm1.im, p1.im, p0.im))
  }

  /** No step of size dt on a mode with a non-positive real part grows. */
  ghost predicate Stable(c: TwoStage, dt: real) {
    forall growth: Complex, xm1: Complex, xz: Complex, x: Complex ::
      growth.re <= 0.0 && TestStep(c, dt, growth, xm1, xz, x) ==> Norm2(x) <= Norm2(xm1)
  }

  // ----- a step is a quotient of two quadratic polynomials in q = growth*dt

  /** k + l*q + m*q^2. */
  function Polynomial(k: real, l: real, m: real, q: Complex): Complex {
    var qq := Mul(q, q);
    Complex(k + l * q.re + m * qq.re, l * q.im + m * qq.im)
  }

  function Denominator(rho: real, q: Complex): Complex {
    Polynomial(6.0 * (1.0 + rho), -2.0 * (2.0 + rho), 1.0, q)
  }

  function Numerator(rho: real, q: Complex): Complex {
    Polynomial(6.0 * (1.0 + rho), 2.0 * (1.0 + 2.0 * rho), rho, q)
  }

  /** The coefficients of the two polynomials, over 6*s with s = 1 + rho. */
  ghost predicate QuotientOf(c: TwoStage, rho: real) {
    && rho != -1.0
    && 6.0 * (1.0 + rho) * (c.w0 + c.wz * c.m0) == 2.0 * (2.0 + rho)
    && 6.0 * (1.0 + rho) * (c.wz * c.n0) == -1.0
    && 6.0 * (1.0 + rho) * (c.w1 + c.wz * c.m1) == 2.0 * (1.0 + 2.0 * rho)
    && 6.0 * (1.0 + rho) * (c.wz * c.n1) == rho
  }

  /** The Radau II method is the case rho = 0. */
  lemma RadauQuotient()
    ensures QuotientOf(RadauFor(), 0.0)
  {
  }

  lemma CubicQuotient(rho: real)
    requires rho != 0.0 && rho != -1.0
    ensures QuotientOf(CubicFor(rho), rho)
  {
    hide CubicFor;
    CubicParts(rho, CubicFor(rho), 1.0 + rho, 6.0 * rho);
  }

  lemma CubicParts(rho: real, c: TwoStage, s: real, l: real)
    requires rho != 0.0 && rho != -1.0 && c == CubicFor(rho) && s == 1.0 + rho && l == 6.0 * rho
    ensures QuotientOf(c, rho)
  {
    hide CubicFor, CubicOver, Cleared, Divisors, Cm0, Cm1, Cn0, Cn1, QuotientOf;
    CubicAgrees(rho);
    CubicBasis(rho, c, s, 1.0 + c.z, l);
    CubicWeights(rho, c, s, 1.0 + c.z, l);
    CubicInterpolation(rho, c.z, s);
    SecondIsFirst(rho, c);
    FirstPart(rho, s, l, c.w0, c.jzz, 6.0 * s);
    SecondPart(rho, s, l, c.wz, c.n0, 6.0 * s);
    QuotientFromParts(rho, c, 6.0 * s);
  }

  lemma SecondIsFirst(rho: real, c: TwoStage)
    requires rho != 0.0 && rho != -1.0 && Cleared(c.z, 1.0 + rho, -rho) && c.n0 == Cn0(c.z) && c.n1 == Cn1(c.z)
    ensures c.n1 == -(rho * c.n0)
  {
    hide Cleared;
    CubicSecond(rho, c.z, c.n0, c.n1);
  }

  lemma FirstPart(rho: real, s: real, l: real, w0: real, jzz: real, d: real)
    requires rho != 0.0 && s == 1.0 + rho && l == 6.0 * rho && d == 6.0 * s
    requires Cleared(w0, l, 2.0 * rho - 1.0) && Cleared(jzz, l * s, 1.0 + 3.0 * rho)
    ensures d * (w0 + jzz) == 2.0 * (2.0 + rho)
  {
    assert (d * w0) * rho == (w0 * l) * s;
    assert (d * jzz) * rho == jzz * (l * s);
    assert (2.0 * rho - 1.0) * s + (1.0 + 3.0 * rho) == 2.0 * (2.0 + rho) * rho;
    assert (d * (w0 + jzz)) * rho == (d * w0) * rho + (d * jzz) * rho;
    Cancel(d * (w0 + jzz), 2.0 * (2.0 + rho), rho);
  }

  lemma SecondPart(rho: real, s: real, l: real, wz: real, n0: real, d: real)
    requires rho != 0.0 && s != 0.0 && l == 6.0 * rho && d == 6.0 * s
    requires Cleared(wz, l, s * s) && Cleared(n0, s * s * s, -rho)
    ensures d * (wz * n0) == -1.0
  {
    var k := rho * (s * s);
    NonZero2(s, s);
    NonZero2(rho, s * s);
    assert (wz * l) * (n0 * (s * s * s)) == (s * s) * -rho == -k;
    assert (d * (wz * n0)) * k == (wz * l) * (n0 * (s * s * s));
    Cancel(d * (wz * n0), -1.0, k);
  }

  lemma QuotientFromParts(rho: real, c: TwoStage, d: real)
    requires rho != -1.0 && d == 6.0 * (1.0 + rho) && NewtonAgrees(c) && Consistent(c) && c.n1 == -(rho * c.n0)
    requires d * (c.w0 + c.jzz) == 2.0 * (2.0 + rho) && d * (c.wz * c.n0) == -1.0
    ensures QuotientOf(c, rho)
  {
    assert c.w0 + c.wz * c.m0 == c.w0 + c.jzz;
    assert c.w1 + c.wz * c.m1 == 1.0 - (c.w0 + c.jzz) by {
      assert c.wz * c.m1 == c.wz - c.wz * c.m0;
    }
    assert d * (1.0 - (c.w0 + c.jzz)) == d - 2.0 * (2.0 + rho);
    assert c.wz * c.n1 == -(rho * (c.wz * c.n0));
    assert d * -(rho * (c.wz * c.n0)) == -(rho * (d * (c.wz * c.n0)));
  }

  /** The intermediate state, written with q. */
  function MidOf(c: TwoStage, q: Complex, xm1: Complex, x: Complex): Complex {
    var a, b := Mul(q, xm1), Mul(q, x);
    Complex(MidRow(c, x.re, xm1.re, b.re, a.re), MidRow(c, x.im, xm1.im, b.im, a.im))
  }

  function MidRow(c: TwoStage, x: real, xm1: real, b: real, a: real): real {
    c.m0 * x + c.m1 * xm1 + (c.n0 * b + c.n1 * a)
  }

  ghost predicate FullRow(c: TwoStage, x: real, xm1: real, a: real, z: real, b: real) {
    x == xm1 + (c.w1 * a + c.wz * z + c.w0 * b)
  }

  lemma ScaledStep(c: TwoStage, dt: real, growth: Complex, q: Complex, xm1: Complex, xz: Complex, x: Complex)
    requires q == Scale(dt, growth)
    ensures var a, z, b := Mul(q, xm1), Mul(q, xz), Mul(q, x);
      TestStep(c, dt, growth, xm1, xz, x) <==>
      FullRow(c, x.re, xm1.re, a.re, z.re, b.re) && FullRow(c, x.im, xm1.im, a.im, z.im, b.im)
      && xz == MidOf(c, q, xm1, x)
  {
    var p1, pz, p0 := Mul(growth, xm1), Mul(growth, xz), Mul(growth, x);
    MulScaled(dt, growth, q, xm1);
    MulScaled(dt, growth, q, xz);
    MulScaled(dt, growth, q, x);
    hide Mul, StepX, StepXz, FullRow, MidRow;
    var a, z, b := Mul(q, xm1), Mul(q, xz), Mul(q, x);
    StepScaled(c, dt, xm1.re, x.re, p1.re, pz.re, p0.re, a.re, z.re, b.re);
    StepScaled(c, dt, xm1.im, x.im, p1.im, pz.im, p0.im, a.im, z.im, b.im);
  }

  lemma MulScaled(dt: real, a: Complex, q: Complex, b: Complex)
    requires q == Scale(dt, a)
    ensures Mul(q, b) == Scale(dt, Mul(a, b))
  {
    assert (dt * a.re) * b.re == dt * (a.re * b.re) && (dt * a.im) * b.im == dt * (a.im * b.im);
    assert (dt * a.re) * b.im == dt * (a.re * b.im) && (dt * a.im) * b.re == dt * (a.im * b.re);
  }

  lemma StepScaled(c: TwoStage, dt: real, xm1: real, x: real, p1: real, pz: real, p0: real, a: real, z: real, b: real)
    requires a == dt * p1 && z == dt * pz && b == dt * p0
    ensures x == StepX(c, dt, xm1, p1, pz, p0) <==> FullRow(c, x, xm1, a, z, b)
    ensures StepXz(c, dt, x, xm1, p1, p0) == MidRow(c, x, xm1, b, a)
  {
    assert dt * (c.w1 * p1 + c.wz * pz + c.w0 * p0) == c.w1 * a + c.wz * z + c.w0 * b;
    assert dt * (c.n0 * p0 + c.n1 * p1) == c.n0 * b + c.n1 * a;
  }

  lemma MulMid(c: TwoStage, q: Complex, xm1: Complex, x: Complex)
    ensures Mul(q, MidOf(c, q, xm1, x)) == MidOf(c, q, Mul(q, xm1), Mul(q, x))
  {
    var a, b, z := Mul(q, xm1), Mul(q, x), MidOf(c, q, xm1, x);
    MidCombines(c, q.re, -q.im, x.re, xm1.re, b.re, a.re, x.im, xm1.im, b.im, a.im);
    MidCombines(c, q.re, q.im, x.im, xm1.im, b.im, a.im, x.re, xm1.re, b.re, a.re);
  }

  lemma MidCombines(c: TwoStage, k: real, l: real, x: real, xm1: real, b: real, a: real,
                    y: real, ym1: real, d: real, e: real)
    ensures k * MidRow(c, x, xm1, b, a) + l * MidRow(c, y, ym1, d, e)
         == MidRow(c, k * x + l * y, k * xm1 + l * ym1, k * b + l * d, k * a + l * e)
  {
    Combines(c.m0, k, l, x, y);
    Combines(c.m1, k, l, xm1, ym1);
    Combines(c.n0, k, l, b, d);
    Combines(c.n1, k, l, a, e);
    assert k * MidRow(c, x, xm1, b, a) == k * (c.m0 * x) + k * (c.m1 * xm1) + k * (c.n0 * b) + k * (c.n1 * a);
    assert l * MidRow(c, y, ym1, d, e) == l * (c.m0 * y) + l * (c.m1 * ym1) + l * (c.n0 * d) + l * (c.n1 * e);
  }

  lemma Combines(m: real, k: real, l: real, x: real, y: real)
    ensures m * (k * x + l * y) == k * (m * x) + l * (m * y)
  {
  }

  /** k*x + l*b + m*bb, component by component. */
  function Combined(k: real, l: real, m: real, x: real, b: real, bb: real): real {
    k * x + l * b + m * bb
  }

  lemma QuotientRow(c: TwoStage, rho: real, d: real, g: real, e: real, one: real,
                    x: real, xm1: real, b: real, a: real, bb: real, aa: real, z: real)
    requires QuotientOf(c, rho) && d == 6.0 * (1.0 + rho) && z == MidRow(c, b, a, bb, aa)
    requires g == -2.0 * (2.0 + rho) && e == 2.0 * (1.0 + 2.0 * rho) && one == 1.0
    ensures FullRow(c, x, xm1, a, z, b) <==> Combined(d, g, one, x, b, bb) == Combined(d, e, rho, xm1, a, aa)
  {
    var rest := x - xm1 - (c.w1 * a + c.wz * z + c.w0 * b);
    assert c.wz * z == (c.wz * c.m0) * b + (c.wz * c.m1) * a + ((c.wz * c.n0) * bb + (c.wz * c.n1) * aa);
    assert rest == x - xm1 - (c.w1 + c.wz * c.m1) * a - (c.w0 + c.wz * c.m0) * b
                   - (c.wz * c.n0) * bb - (c.wz * c.n1) * aa;
    RowTimes(d, x, xm1, c.w1 + c.wz * c.m1, c.w0 + c.wz * c.m0, c.wz * c.n0, c.wz * c.n1, a, b, bb, aa,
             e, -g, -one, rho, rest);
  }

  lemma RowTimes(d: real, x: real, xm1: real, e: real, f: real, g: real, h: real, a: real, b: real, bb: real, aa: real,
                 de: real, df: real, dg: real, dh: real, rest: real)
    requires d != 0.0 && d * e == de && d * f == df && d * g == dg && d * h == dh
    requires rest == x - xm1 - e * a - f * b - g * bb - h * aa
    ensures rest == 0.0 <==> d * x - df * b - dg * bb == d * xm1 + de * a + dh * aa
  {
    assert d * (e * a) == de * a && d * (f * b) == df * b && d * (g * bb) == dg * bb && d * (h * aa) == dh * aa;
    assert d * rest == d * x - d * xm1 - d * (e * a) - d * (f * b) - d * (g * bb) - d * (h * aa);
    if rest != 0.0 {
      NonZero2(d, rest);
    }
  }

  lemma PolynomialTimes(k: real, l: real, m: real, q: Complex, x: Complex)
    ensures var b := Mul(q, x); var bb := Mul(q, b);
      Mul(Polynomial(k, l, m, q), x)
        == Complex(Combined(k, l, m, x.re, b.re, bb.re), Combined(k, l, m, x.im, b.im, bb.im))
  {
    MulAssociates(q, x);
    PolynomialProduct(k, l, m, q, Mul(q, q), x, Mul(q, x), Mul(Mul(q, q), x));
  }

  lemma PolynomialProduct(k: real, l: real, m: real, q: Complex, qq: Complex, x: Complex, b: Complex, bb: Complex)
    requires b == Mul(q, x) && bb == Mul(qq, x)
    ensures Mul(Complex(k + l * q.re + m * qq.re, l * q.im + m * qq.im), x)
         == Complex(Combined(k, l, m, x.re, b.re, bb.re), Combined(k, l, m, x.im, b.im, bb.im))
  {
    PolynomialRow(k, l, m, q.re, q.im, qq.re, qq.im, x.re, x.im, b.re, bb.re);
    PolynomialRow(k, l, m, q.re, -q.im, qq.re, -qq.im, x.im, x.re, b.im, bb.im);
    assert (l * -q.im + m * -qq.im) * x.re == -((l * q.im + m * qq.im) * x.re);
  }

  lemma MulAssociates(q: Complex, x: Complex)
    ensures Mul(q, Mul(q, x)) == Mul(Mul(q, q), x)
  {
  }

  lemma PolynomialRow(k: real, l: real, m: real, a: real, b: real, aa: real, bb: real, x: real, y: real,
                      p: real, pp: real)
    requires p == a * x - b * y && pp == aa * x - bb * y
    ensures (k + l * a + m * aa) * x - (l * b + m * bb) * y == k * x + l * p + m * pp
  {
    assert l * p == l * (a * x) - l * (b * y) && m * pp == m * (aa * x) - m * (bb * y);
  }

  /** The steps on the test equation are the solutions of Denominator(q)*x == Numerator(q)*xm1. */
  lemma StepIsQuotient(c: TwoStage, rho: real, dt: real, growth: Complex, q: Complex,
                       xm1: Complex, xz: Complex, x: Complex)
    requires QuotientOf(c, rho) && q == Scale(dt, growth) && xz == MidOf(c, q, xm1, x)
    ensures TestStep(c, dt, growth, xm1, xz, x) <==> Mul(Denominator(rho, q), x) == Mul(Numerator(rho, q), xm1)
  {
    hide QuotientOf, TestStep, FullRow, MidRow, Mul, Scale, Polynomial, MidOf, Combined;
    ScaledStep(c, dt, growth, q, xm1, xz, x);
    MulMid(c, q, xm1, x);
    QuotientRows(c, rho, 6.0 * (1.0 + rho), -2.0 * (2.0 + rho), 2.0 * (1.0 + 2.0 * rho), 1.0, q, xm1, xz, x);
  }

  lemma QuotientRows(c: TwoStage, rho: real, d: real, g: real, e: real, one: real, q: Complex,
                     xm1: Complex, xz: Complex, x: Complex)
    requires QuotientOf(c, rho) && d == 6.0 * (1.0 + rho)
    requires g == -2.0 * (2.0 + rho) && e == 2.0 * (1.0 + 2.0 * rho) && one == 1.0
    requires Mul(q, xz) == MidOf(c, q, Mul(q, xm1), Mul(q, x))
    ensures var a, z, b := Mul(q, xm1), Mul(q, xz), Mul(q, x);
      FullRow(c, x.re, xm1.re, a.re, z.re, b.re) && FullRow(c, x.im, xm1.im, a.im, z.im, b.im) <==>
      Mul(Polynomial(d, g, one, q), x) == Mul(Polynomial(d, e, rho, q), xm1)
  {
    var a, z, b := Mul(q, xm1), Mul(q, xz), Mul(q, x);
    var aa, bb := Mul(q, a), Mul(q, b);
    hide QuotientOf, FullRow, MidRow, Mul, Polynomial, Combined;
    QuotientRow(c, rho, d, g, e, one, x.re, xm1.re, b.re, a.re, bb.re, aa.re, z.re);
    QuotientRow(c, rho, d, g, e, one, x.im, xm1.im, b.im, a.im, bb.im, aa.im, z.im);
    PolynomialTimes(d, g, one, q, x);
    PolynomialTimes(d, e, rho, q, xm1);
  }

  // ----- the two polynomials in the left half-plane

  /** By how much the denominator exceeds the numerator, from a = Re(q) and m = |q|^2. */
  function Excess(rho: real, a: real, m: real): real {
    (1.0 - rho * rho) * (m * m + 24.0 * (a * a)) - 72.0 * ((1.0 + rho) * (1.0 + rho)) * a
    - 8.0 * (1.0 + rho + rho * rho) * (a * m)
  }

  lemma ExcessIsDifference(rho: real, q: Complex)
    ensures Norm2(Denominator(rho, q)) - Norm2(Numerator(rho, q)) == Excess(rho, q.re, Norm2(q))
  {
    hide Norm2, Polynomial, Excess;
    ExcessOver(rho, 6.0 * (1.0 + rho), -2.0 * (2.0 + rho), 2.0 * (1.0 + 2.0 * rho), q, Mul(q, q).re, Norm2(q));
  }

  lemma ExcessOver(rho: real, k: real, l: real, e: real, q: Complex, u: real, m: real)
    requires k == 6.0 * (1.0 + rho) && l == -2.0 * (2.0 + rho) && e == 2.0 * (1.0 + 2.0 * rho)
    requires u == Mul(q, q).re && m == Norm2(q)
    ensures Norm2(Polynomial(k, l, 1.0, q)) - Norm2(Polynomial(k, e, rho, q)) == Excess(rho, q.re, m)
  {
    var a := q.re;
    hide Norm2, Mul, Polynomial, Excess, Size;
    SquareAndNorm(q);
    PolynomialNorm(k, l, 1.0, q, a, u, m);
    PolynomialNorm(k, e, rho, q, a, u, m);
    ExcessSum(rho, k, l, e, a, u, m);
  }

  /** |k + l*q + n*q^2|^2, from a = Re(q), u = Re(q^2) and m = |q|^2. */
  function Size(k: real, l: real, n: real, a: real, u: real, m: real): real {
    k * k + l * l * m + n * n * (m * m) + 2.0 * k * l * a + 2.0 * k * n * u + 2.0 * l * n * (a * m)
  }

  lemma SquareAndNorm(q: Complex)
    ensures Norm2(q) + Mul(q, q).re == 2.0 * (q.re * q.re)
  {
  }

  lemma PolynomialNorm(k: real, l: real, n: real, q: Complex, a: real, u: real, m: real)
    requires a == q.re && u == Mul(q, q).re && m == Norm2(q)
    ensures Norm2(Polynomial(k, l, n, q))
         == Size(k, l, n, a, u, m)
  {
    var b, v := q.im, Mul(q, q).im;
    SquareSum(k, l, n, a, b, u, v);
    assert u * u + v * v == m * m;
    assert a * u + b * v == a * m;
    assert a * a + b * b == m;
  }

  lemma SquareSum(k: real, l: real, n: real, a: real, b: real, u: real, v: real)
    ensures (k + l * a + n * u) * (k + l * a + n * u) + (l * b + n * v) * (l * b + n * v)
         == k * k + l * l * (a * a + b * b) + n * n * (u * u + v * v)
            + 2.0 * k * l * a + 2.0 * k * n * u + 2.0 * l * n * (a * u + b * v)
  {
  }

  lemma ExcessSum(rho: real, k: real, l: real, e: real, a: real, u: real, m: real)
    requires k == 6.0 * (1.0 + rho) && l == -2.0 * (2.0 + rho) && e == 2.0 * (1.0 + 2.0 * rho) && m + u == 2.0 * (a * a)
    ensures Size(k, l, 1.0, a, u, m) - Size(k, e, rho, a, u, m) == Excess(rho, a, m)
  {
    var f := 1.0 - rho * rho;
    assert l * l - e * e == 12.0 * f && 2.0 * k * (1.0 - rho) == 12.0 * f;
    assert 2.0 * k * (l - e) == -72.0 * ((1.0 + rho) * (1.0 + rho));
    assert 2.0 * (l - e * rho) == -8.0 * (1.0 + rho + rho * rho);
    assert (l * l - e * e) * m + 2.0 * k * (1.0 - rho) * u == 12.0 * f * (m + u) == f * (24.0 * (a * a));
  }

  lemma NormMul(a: Complex, b: Complex)
    ensures Norm2(Mul(a, b)) == Norm2(a) * Norm2(b)
  {
  }

  lemma ExcessNonNegative(rho: real, a: real, m: real)
    requires -1.0 < rho <= 1.0 && a <= 0.0 && m >= 0.0
    ensures Excess(rho, a, m) >= 0.0 && (a < 0.0 ==> Excess(rho, a, m) > 0.0)
  {
    hide Excess;
    NonNegative(1.0 - rho, 1.0 + rho);
    Sums.Square(rho, rho * rho);
    Sums.Square(1.0 + rho, (1.0 + rho) * (1.0 + rho));
    assert 1.0 - rho * rho == (1.0 - rho) * (1.0 + rho);
    ExcessTerms(rho, a, m, 1.0 - rho * rho, (1.0 + rho) * (1.0 + rho), 1.0 + rho + rho * rho, -a);
  }

  lemma ExcessTerms(rho: real, a: real, m: real, f: real, g: real, h: real, b: real)
    requires f == 1.0 - rho * rho >= 0.0 && g == (1.0 + rho) * (1.0 + rho) > 0.0 && h == 1.0 + rho + rho * rho >= 0.0
    requires b == -a >= 0.0 && m >= 0.0
    ensures Excess(rho, a, m) >= 0.0 && (a < 0.0 ==> Excess(rho, a, m) > 0.0)
  {
    ExcessOfOpposite(rho, a, m, f, g, h, b);
    hide Excess;
    SumOfSigns(Excess(rho, a, m), f, g, h, b, m, a * a, m * m);
  }

  lemma ExcessOfOpposite(rho: real, a: real, m: real, f: real, g: real, h: real, b: real)
    requires f == 1.0 - rho * rho && g == (1.0 + rho) * (1.0 + rho) && h == 1.0 + rho + rho * rho && b == -a
    ensures Excess(rho, a, m) == f * (m * m + 24.0 * (a * a)) + 72.0 * (g * b) + 8.0 * (h * (b * m))
  {
    hide Excess;
    Negated(g, b);
    Negated(m, b);
    Negated(h, b * m);
    ExcessParts(rho, a, m, f, g, h, a * a, g * a, h * (a * m));
  }

  lemma SumOfSigns(e: real, f: real, g: real, h: real, b: real, m: real, aa: real, mm: real)
    requires f >= 0.0 && g > 0.0 && h >= 0.0 && b >= 0.0 && m >= 0.0 && aa == b * b && mm == m * m
    requires e == f * (mm + 24.0 * aa) + 72.0 * (g * b) + 8.0 * (h * (b * m))
    ensures e >= 0.0 && (b > 0.0 ==> e > 0.0)
  {
    Sums.Square(m, mm);
    Sums.Square(b, aa);
    NonNegative(f, mm + 24.0 * aa);
    NonNegative(b, m);
    NonNegative(h, b * m);
    NonNegative(g, b);
    if b > 0.0 {
      Positive(g, b);
    }
  }

  lemma ExcessParts(rho: real, a: real, m: real, f: real, g: real, h: real, aa: real, ga: real, ham: real)
    requires f == 1.0 - rho * rho && g == (1.0 + rho) * (1.0 + rho) && h == 1.0 + rho + rho * rho
    requires aa == a * a && ga == g * a && ham == h * (a * m)
    ensures Excess(rho, a, m) == f * (m * m + 24.0 * aa) - 72.0 * ga - 8.0 * ham
  {
  }

  lemma Negated(k: real, b: real)
    ensures k * -b == -(k * b) && -b * k == -(b * k)
  {
  }

  lemma Positive(a: real, b: real)
    requires a > 0.0 && b > 0.0
    ensures a * b > 0.0
  {
  }

  lemma NonNegative(a: real, b: real)
    requires a >= 0.0 && b >= 0.0
    ensures a * b >= 0.0
  {
  }

  lemma DenominatorVanishesNowhere(rho: real, q: Complex)
    requires -1.0 < rho <= 1.0 && q.re <= 0.0
    ensures Norm2(Denominator(rho, q)) > 0.0
  {
    ExcessIsDifference(rho, q);
    ExcessNonNegative(rho, q.re, Norm2(q));
    hide Excess;
    if q.re == 0.0 {
      OnImaginaryAxis(rho, q.im, Denominator(rho, q));
    }
  }

  lemma OnImaginaryAxis(rho: real, b: real, d: Complex)
    requires rho > -1.0 && d == Denominator(rho, Complex(0.0, b))
    ensures Norm2(d) > 0.0
  {
    assert d.re == 6.0 * (1.0 + rho) - b * b && d.im == -2.0 * (2.0 + rho) * b;
    if b != 0.0 {
      NonZero2(-2.0 * (2.0 + rho), b);
    }
    PositiveNorm(d);
  }

  lemma PositiveNorm(d: Complex)
    requires d.re != 0.0 || d.im != 0.0
    ensures Norm2(d) > 0.0
  {
    Sums.Square(d.re, d.re * d.re);
    Sums.Square(d.im, d.im * d.im);
  }

  // ----- the theorem

  /** A method with these polynomials is stable exactly when |rho| <= 1. */
  lemma StableExactly(c: TwoStage, rho: real, dt: real)
    requires QuotientOf(c, rho) && dt > 0.0
    ensures Stable(c, dt) <==> -1.0 <= rho <= 1.0
  {
    hide QuotientOf, TestStep;
    if -1.0 <= rho <= 1.0 {
      assert rho != -1.0 by { StepDefined(c, rho); }
      forall growth: Complex, xm1: Complex, xz: Complex, x: Complex
        | growth.re <= 0.0 && TestStep(c, dt, growth, xm1, xz, x)
        ensures Norm2(x) <= Norm2(xm1)
      {
        NoStepGrows(c, rho, dt, growth, xm1, xz, x);
      }
    } else {
      GrowingStep(c, rho, dt);
    }
  }

  lemma StepDefined(c: TwoStage, rho: real)
    requires QuotientOf(c, rho)
    ensures rho != -1.0
  {
  }

  lemma NoStepGrows(c: TwoStage, rho: real, dt: real, growth: Complex, xm1: Complex, xz: Complex, x: Complex)
    requires QuotientOf(c, rho) && -1.0 < rho <= 1.0 && dt > 0.0
    requires growth.re <= 0.0 && TestStep(c, dt, growth, xm1, xz, x)
    ensures Norm2(x) <= Norm2(xm1)
  {
    var q := Scale(dt, growth);
    NonNegative(dt, -growth.re);
    ScaledStep(c, dt, growth, q, xm1, xz, x);
    hide QuotientOf, TestStep, Denominator, Numerator, Mul, Norm2, Excess, MidOf, FullRow;
    StepIsQuotient(c, rho, dt, growth, q, xm1, xz, x);
    var d, n := Denominator(rho, q), Numerator(rho, q);
    NormMul(d, x);
    NormMul(n, xm1);
    ExcessIsDifference(rho, q);
    SizeNonNegative(q);
    SizeNonNegative(xm1);
    ExcessNonNegative(rho, q.re, Norm2(q));
    DenominatorVanishesNowhere(rho, q);
    Quotient(Norm2(d), Norm2(n), Norm2(x), Norm2(xm1));
  }

  lemma SizeNonNegative(a: Complex)
    ensures Norm2(a) >= 0.0
  {
  }

  lemma Quotient(d: real, n: real, x: real, y: real)
    requires d > 0.0 && n <= d && y >= 0.0 && d * x == n * y
    ensures x <= y
  {
    NonNegative(d - n, y);
    assert d * x <= d * y;
    if x > y {
      Positive(d, x - y);
    }
  }

  /** For |rho| > 1 the mode growth*dt = i grows. */
  lemma GrowingStep(c: TwoStage, rho: real, dt: real)
    requires QuotientOf(c, rho) && dt > 0.0 && (rho < -1.0 || rho > 1.0)
    ensures !Stable(c, dt)
  {
    var growth, q, one := Complex(0.0, 1.0 / dt), Complex(0.0, 1.0), Complex(1.0, 0.0);
    assert q == Scale(dt, growth) && Norm2(one) == 1.0;
    AtUnit(rho, q, one);
    hide QuotientOf, TestStep, Denominator, Numerator, Mul, Norm2, MidOf, Scale;
    var d, n := Denominator(rho, q), Numerator(rho, q);
    var x := Divided(n, d);
    DividedTimes(n, d, x);
    StepIsQuotient(c, rho, dt, growth, q, one, MidOf(c, q, one, x), x);
    NormMul(d, x);
    Grows(Norm2(d), Norm2(n), Norm2(x));
  }

  lemma AtUnit(rho: real, q: Complex, one: Complex)
    requires (rho < -1.0 || rho > 1.0) && q == Complex(0.0, 1.0) && one == Complex(1.0, 0.0)
    ensures var d, n := Denominator(rho, q), Numerator(rho, q);
      Norm2(n) > Norm2(d) > 0.0 && Mul(n, one) == n
  {
    var d, n := Denominator(rho, q), Numerator(rho, q);
    assert d.re == 5.0 + 6.0 * rho;
    PositiveNorm(d);
    ExcessIsDifference(rho, q);
    hide Denominator, Numerator;
    assert Norm2(q) == 1.0;
    SquareAboveOne(rho);
    assert Excess(rho, 0.0, 1.0) == 1.0 - rho * rho;
  }

  function Divided(n: Complex, d: Complex): Complex
    requires Norm2(d) != 0.0
  {
    Complex((n.re * d.re + n.im * d.im) / Norm2(d), (n.im * d.re - n.re * d.im) / Norm2(d))
  }

  lemma DividedTimes(n: Complex, d: Complex, x: Complex)
    requires Norm2(d) != 0.0 && x == Divided(n, d)
    ensures Mul(d, x) == n
  {
    var k := Norm2(d);
    var u, v := n.re * d.re + n.im * d.im, n.im * d.re - n.re * d.im;
    assert x.re * k == u && x.im * k == v;
    assert (d.re * x.re - d.im * x.im) * k == d.re * (x.re * k) - d.im * (x.im * k) == n.re * k;
    assert (d.re * x.im + d.im * x.re) * k == d.re * (x.im * k) + d.im * (x.re * k) == n.im * k;
    Cancel(d.re * x.re - d.im * x.im, n.re, k);
    Cancel(d.re * x.im + d.im * x.re, n.im, k);
  }

  lemma SquareAboveOne(rho: real)
    requires rho < -1.0 || rho > 1.0
    ensures rho * rho > 1.0
  {
  }

  lemma Grows(d: real, n: real, x: real)
    requires d > 0.0 && n > d && d * x == n
    ensures x > 1.0
  {
    if x <= 1.0 {
      NonNegative(d, 1.0 - x);
    }
  }

  /** method_cubic: rho may be any asymptotic radius that does not amplify, and no other. */
  lemma CubicStable(rho: real, dt: real)
    requires rho != 0.0 && rho != -1.0 && dt > 0.0
    ensures Stable(CubicFor(rho), dt) <==> -1.0 <= rho <= 1.0
  {
    hide CubicFor, Stable, QuotientOf;
    CubicQuotient(rho);
    StableExactly(CubicFor(rho), rho, dt);
  }

  lemma RadauStable(dt: real)
    requires dt > 0.0
    ensures Stable(RadauFor(), dt)
  {
    hide RadauFor, Stable, QuotientOf;
    RadauQuotient();
    StableExactly(RadauFor(), 0.0, dt);
  }
}

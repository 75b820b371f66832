// The coefficients of the two-stage methods of utils/dae-intg.cc, method_cubic and method_radau_II:
// an update of the state from its derivatives at the last time, at the intermediate time z and at the new time,
// and an interpolation of the state at the intermediate time.
module TwoStageCoefficients {
  import opened DaeCoefficients

  /** The weights of two states and two derivatives in an extrapolated derivative. */
  datatype Slopes = Slopes(m0: real, m1: real, n0: real, n1: real)

  /** x = xm1 + dt*(w1*xpm1 + wz*xpz + w0*xp) and xz = m0*x + m1*xm1 + dt*(n0*xp + n1*xpm1), with the Newton
      coefficients j per unit of dt, and the weights that predict the derivatives at the new time and at z. */
  datatype TwoStage = TwoStage(
    z: real, w1: real, wz: real, w0: real, m0: real, m1: real, n0: real, n1: real,
    jzz: real, jz0: real, j0z: real, j00: real, full: Slopes, mid: Slopes)

  function Ratio(a: real, b: real): real
    requires b != 0.0
  {
    a / b
  }

  /** x = v/d, without the division. */
  ghost predicate Cleared(x: real, d: real, v: real) {
    x * d == v
  }

  lemma RatioCleared(x: real, a: real, b: real)
    requires b != 0.0 && x == Ratio(a, b)
    ensures Cleared(x, b, a)
  {
  }

  /** The weights that extrapolate a derivative by the Hermite basis. */
  function HermiteSlopes(xi: real): Slopes {
    Slopes(Cm0p(xi), Cm1p(xi), Cn0p(xi), Cn1p(xi))
  }

  function CubicFor(rho: real): TwoStage
    requires rho != 0.0 && rho != -1.0
  {
    var z := Ratio(-rho, 1.0 + rho);
    RatioCleared(z, -rho, 1.0 + rho);
    CubicNodes(rho, z, 1.0 + rho, 1.0 + z, 6.0 * rho);
    CubicOver(rho, z, 1.0 + rho, 1.0 + z, 6.0 * rho)
  }

  /** The coefficients over the divisors made of z, s = 1 + rho, y = 1 + z and l = 6*rho. */
  function CubicOver(rho: real, z: real, s: real, y: real, l: real): TwoStage
    requires Divisors(z, s, y, l)
  {
    TwoStage(z,
      Ratio(2.0 + 3.0 * z, 6.0 * y), Ratio(-1.0, 6.0 * z * y), Ratio(1.0 + 3.0 * z, 6.0 * z),
      Cm0(z), Cm1(z), Cn0(z), Cn1(z),
      Ratio(1.0 + 3.0 * rho, l * s), Ratio(-1.0, l * s * s), Ratio(s * s, l), Ratio(2.0 * rho - 1.0, l),
      HermiteSlopes(1.0), HermiteSlopes(y))
  }

  function RadauFor(): TwoStage {
    var z := -2.0 / 3.0;
    TwoStage(z, 0.0, -1.0 / (2.0 * z), (1.0 + 2.0 * z) / (2.0 * z),
      RadauCm0(z), RadauCm1(z), RadauCn0(z), 0.0,
      5.0 / 12.0, -1.0 / 12.0, 3.0 / 4.0, 1.0 / 4.0,
      Slopes(RadauCm0p(1.0), RadauCm1p(1.0), RadauCn0p(1.0), 0.0),
      Slopes(RadauCm0p(1.0 + z), RadauCm1p(1.0 + z), RadauCn0p(1.0 + z), 0.0))
  }

  ghost predicate Divisors(z: real, s: real, y: real, l: real) {
    && 6.0 * y != 0.0 && 6.0 * z * y != 0.0 && 6.0 * z != 0.0
    && l * s != 0.0 && l * s * s != 0.0 && l != 0.0
  }

  lemma CubicNodes(rho: real, z: real, s: real, y: real, l: real)
    requires rho != 0.0 && s != 0.0 && s == 1.0 + rho && y == 1.0 + z && l == 6.0 * rho && Cleared(z, s, -rho)
    ensures Cleared(y, s, 1.0) && Divisors(z, s, y, l)
  {
    assert y * s == s + z * s;
    NonZero2(6.0 * z, y);
    NonZero2(l, s);
    NonZero2(l * s, s);
  }

  /** The Newton coefficients are the derivatives of the two update formulas with respect to the two derivatives. */
  ghost predicate NewtonAgrees(c: TwoStage) {
    && c.j00 == c.w0
    && c.j0z == c.wz
    && c.jz0 == c.m0 * c.w0 + c.n0
    && c.jzz == c.m0 * c.wz
  }

  /** The formulas are exact for straight lines. */
  ghost predicate Consistent(c: TwoStage) {
    && c.w1 + c.wz + c.w0 == 1.0
    && c.m0 + c.m1 == 1.0
    && c.m0 + c.n0 + c.n1 == 1.0 + c.z
  }

  lemma RadauAgrees()
    ensures NewtonAgrees(RadauFor()) && Consistent(RadauFor())
  {
  }

  lemma CubicAgrees(rho: real)
    requires rho != 0.0 && rho != -1.0
    ensures NewtonAgrees(CubicFor(rho)) && Consistent(CubicFor(rho))
  {
    hide CubicFor, Cm0, Cm1, Cn0, Cn1;
    CubicFieldsAgree(rho, CubicFor(rho), 1.0 + rho, 6.0 * rho);
  }

  lemma CubicFieldsAgree(rho: real, c: TwoStage, s: real, l: real)
    requires rho != 0.0 && rho != -1.0 && c == CubicFor(rho) && s == 1.0 + rho && l == 6.0 * rho
    ensures NewtonAgrees(c) && Consistent(c)
  {
    hide CubicFor, Cm0, Cm1, Cn0, Cn1, Cleared;
    CubicBasis(rho, c, s, 1.0 + c.z, l);
    BasisSums(c.z);
    CubicWeights(rho, c, s, 1.0 + c.z, l);
    CubicInterpolation(rho, c.z, s);
    WeightsAgree(rho, l, s, c.w1, c.wz, c.w0, c.j0z, c.j00);
    CoupledTerms(rho, s, l, c.m0, c.n0, c.w0, c.wz, c.jz0, c.jzz);
  }

  lemma CubicBasis(rho: real, c: TwoStage, s: real, y: real, l: real)
    requires rho != 0.0 && rho != -1.0 && c == CubicFor(rho) && s == 1.0 + rho && y == 1.0 + c.z && l == 6.0 * rho
    ensures Cleared(c.z, s, -rho) && Cleared(y, s, 1.0) && Divisors(c.z, s, y, l) && c == CubicOver(rho, c.z, s, y, l)
    ensures c.m0 == Cm0(c.z) && c.m1 == Cm1(c.z) && c.n0 == Cn0(c.z) && c.n1 == Cn1(c.z)
    ensures c.full == HermiteSlopes(1.0) && c.mid == HermiteSlopes(1.0 + c.z)
  {
    hide Ratio, Cm0, Cm1, Cn0, Cn1, HermiteSlopes, Cleared, Divisors;
    RatioCleared(c.z, -rho, s);
    CubicNodes(rho, c.z, s, y, l);
  }

  lemma WeightsAgree(rho: real, l: real, s: real, w1: real, wz: real, w0: real, j0z: real, j00: real)
    requires l == 6.0 * rho && l != 0.0 && s == 1.0 + rho
    requires Cleared(w1, l, rho * (2.0 - rho)) && Cleared(wz, l, s * s) && Cleared(w0, l, 2.0 * rho - 1.0)
    requires Cleared(j0z, l, s * s) && Cleared(j00, l, 2.0 * rho - 1.0)
    ensures w1 + wz + w0 == 1.0 && j0z == wz && j00 == w0
  {
    assert rho * (2.0 - rho) + s * s + (2.0 * rho - 1.0) == l;
    Sum3(w1, wz, w0, l);
    Cancel(w1 + wz + w0, 1.0, l);
    Cancel(j00, w0, l);
    Cancel(j0z, wz, l);
  }

  lemma BasisSums(z: real)
    ensures Cm0(z) + Cm1(z) == 1.0 && Cn0(z) + Cn1(z) - Cm1(z) == z
  {
  }

  /** The weights and the Newton coefficients over the common divisor 6*rho. */
  lemma CubicWeights(rho: real, c: TwoStage, s: real, y: real, l: real)
    requires rho != 0.0 && rho != -1.0 && c == CubicFor(rho)
    requires s == 1.0 + rho && y == 1.0 + c.z && l == 6.0 * rho
    ensures Cleared(c.w1, l, rho * (2.0 - rho)) && Cleared(c.wz, l, s * s) && Cleared(c.w0, l, 2.0 * rho - 1.0)
    ensures Cleared(c.jzz, l * s, 1.0 + 3.0 * rho) && Cleared(c.jz0, l * s * s, -1.0)
    ensures Cleared(c.j0z, l, s * s) && Cleared(c.j00, l, 2.0 * rho - 1.0)
  {
    hide CubicFor, CubicOver, Cleared, Divisors;
    CubicBasis(rho, c, s, y, l);
    OverCommon(rho, c, c.z, s, y, l);
  }

  lemma OverCommon(rho: real, c: TwoStage, z: real, s: real, y: real, l: real)
    requires Divisors(z, s, y, l) && c == CubicOver(rho, z, s, y, l)
    requires s == 1.0 + rho && Cleared(z, s, -rho) && Cleared(y, s, 1.0) && l == 6.0 * rho
    ensures Cleared(c.w1, l, rho * (2.0 - rho)) && Cleared(c.wz, l, s * s) && Cleared(c.w0, l, 2.0 * rho - 1.0)
    ensures Cleared(c.jzz, l * s, 1.0 + 3.0 * rho) && Cleared(c.jz0, l * s * s, -1.0)
    ensures Cleared(c.j0z, l, s * s) && Cleared(c.j00, l, 2.0 * rho - 1.0)
  {
    hide CubicOver, Cleared, Divisors;
    OverDivisors(rho, c, z, s, y, l);
    ScaledWeights(rho, s, l, z, y, c.w1, c.wz, c.w0);
  }

  lemma OverDivisors(rho: real, c: TwoStage, z: real, s: real, y: real, l: real)
    requires Divisors(z, s, y, l) && c == CubicOver(rho, z, s, y, l)
    ensures Cleared(c.w1, 6.0 * y, 2.0 + 3.0 * z) && Cleared(c.wz, 6.0 * z * y, -1.0)
    ensures Cleared(c.w0, 6.0 * z, 1.0 + 3.0 * z) && Cleared(c.j0z, l, s * s)
    ensures Cleared(c.jzz, l * s, 1.0 + 3.0 * rho) && Cleared(c.jz0, l * s * s, -1.0)
    ensures Cleared(c.j00, l, 2.0 * rho - 1.0)
  {
    hide Ratio, Cm0, Cm1, Cn0, Cn1, HermiteSlopes, Cleared;
    RatioCleared(c.w1, 2.0 + 3.0 * z, 6.0 * y);
    RatioCleared(c.wz, -1.0, 6.0 * z * y);
    RatioCleared(c.w0, 1.0 + 3.0 * z, 6.0 * z);
    RatioCleared(c.jzz, 1.0 + 3.0 * rho, l * s);
    RatioCleared(c.jz0, -1.0, l * s * s);
    RatioCleared(c.j0z, s * s, l);
    RatioCleared(c.j00, 2.0 * rho - 1.0, l);
  }

  lemma ScaledWeights(rho: real, s: real, l: real, z: real, y: real, w1: real, wz: real, w0: real)
    requires s == 1.0 + rho && Cleared(z, s, -rho) && Cleared(y, s, 1.0) && l == 6.0 * rho
    requires Cleared(w1, 6.0 * y, 2.0 + 3.0 * z) && Cleared(wz, 6.0 * z * y, -1.0) &&
             Cleared(w0, 6.0 * z, 1.0 + 3.0 * z)
    ensures Cleared(w1, l, rho * (2.0 - rho)) && Cleared(wz, l, s * s) && Cleared(w0, l, 2.0 * rho - 1.0)
  {
    assert 6.0 * w1 == w1 * (6.0 * y) * s == 2.0 * s + 3.0 * (z * s) == 2.0 - rho;
    assert w1 * l == 6.0 * w1 * rho;
    assert (6.0 * z * y) * (s * s) == 6.0 * (z * s) * (y * s);
    assert wz * (6.0 * z * y) * (s * s) == wz * ((6.0 * z * y) * (s * s)) == -(wz * l);
    assert w0 * (6.0 * z) * s == 6.0 * w0 * (z * s);
    assert (1.0 + 3.0 * z) * s == s + 3.0 * (z * s);
  }

  /** The interpolation of the state over the common divisor (1 + rho)^3. */
  lemma CubicInterpolation(rho: real, z: real, s: real)
    requires rho != 0.0 && rho != -1.0 && s == 1.0 + rho && Cleared(z, s, -rho)
    ensures Cleared(Cm0(z), s * s * s, 1.0 + 3.0 * rho) && Cleared(Cn0(z), s * s * s, -rho)
  {
    CubicNodes(rho, z, s, 1.0 + z, 6.0 * rho);
    ScaledInterpolation(rho, s, z, Cm0(z), Cn0(z));
  }

  lemma ScaledInterpolation(rho: real, s: real, z: real, m0: real, n0: real)
    requires s == 1.0 + rho && z * s == -rho && (1.0 + z) * s == 1.0
    requires m0 == 1.0 - 3.0 * z * z - 2.0 * z * z * z && n0 == z + 2.0 * z * z + z * z * z
    ensures m0 * (s * s * s) == 1.0 + 3.0 * rho && n0 * (s * s * s) == -rho
  {
    var y := 1.0 + z;
    assert m0 == (y * y) * (1.0 - 2.0 * z) && n0 == (y * y) * z;
    assert (y * y) * (s * s) == (y * s) * (y * s) == 1.0;
    assert (y * y) * (1.0 - 2.0 * z) * (s * s * s) == ((y * y) * (s * s)) * ((1.0 - 2.0 * z) * s);
    assert (1.0 - 2.0 * z) * s == s - 2.0 * (z * s);
    assert (y * y) * z * (s * s * s) == ((y * y) * (s * s)) * (z * s);
  }

  lemma CoupledTerms(rho: real, s: real, l: real, m0: real, n0: real, w0: real, wz: real, jz0: real, jzz: real)
    requires rho != 0.0 && s != 0.0 && s == 1.0 + rho && l == 6.0 * rho
    requires Cleared(m0, s * s * s, 1.0 + 3.0 * rho) && Cleared(n0, s * s * s, -rho)
    requires Cleared(w0, l, 2.0 * rho - 1.0) && Cleared(wz, l, s * s)
    requires Cleared(jzz, l * s, 1.0 + 3.0 * rho) && Cleared(jz0, l * s * s, -1.0)
    ensures jz0 == m0 * w0 + n0 && jzz == m0 * wz
  {
    var k := s * s * s;
    CommonDivisor(s, l, k, k * l);
    ClearMid(s, l, k, jzz, 1.0 + 3.0 * rho);
    ClearNew(s, l, k, jz0);
    CoupledMid(rho, s, k, l, m0, wz, jzz);
    CoupledNew(rho, s, k, l, m0, n0, w0, jz0);
  }

  lemma CommonDivisor(s: real, l: real, k: real, d: real)
    requires s != 0.0 && l != 0.0 && k == s * s * s && d == k * l
    ensures d != 0.0
  {
    NonZero2(s, s);
    NonZero2(s * s, s);
    NonZero2(k, l);
  }

  lemma ClearMid(s: real, l: real, k: real, x: real, a: real)
    requires k == s * s * s && x * (l * s) == a
    ensures x * (k * l) == a * (s * s)
  {
    assert k * l == (l * s) * (s * s);
    assert x * ((l * s) * (s * s)) == (x * (l * s)) * (s * s);
  }

  lemma ClearNew(s: real, l: real, k: real, x: real)
    requires k == s * s * s && x * (l * s * s) == -1.0
    ensures x * (k * l) == -s
  {
    assert k * l == (l * s * s) * s;
    assert x * ((l * s * s) * s) == (x * (l * s * s)) * s;
  }

  lemma CoupledMid(rho: real, s: real, k: real, l: real, m0: real, wz: real, jzz: real)
    requires k * l != 0.0 && m0 * k == 1.0 + 3.0 * rho && wz * l == s * s &&
             jzz * (k * l) == (1.0 + 3.0 * rho) * (s * s)
    ensures jzz == m0 * wz
  {
    assert (m0 * wz) * (k * l) == (m0 * k) * (wz * l);
    Cancel(jzz, m0 * wz, k * l);
  }

  lemma CoupledNew(rho: real, s: real, k: real, l: real, m0: real, n0: real, w0: real, jz0: real)
    requires s == 1.0 + rho && l == 6.0 * rho && k * l != 0.0
    requires m0 * k == 1.0 + 3.0 * rho && n0 * k == -rho && w0 * l == 2.0 * rho - 1.0 && jz0 * (k * l) == -s
    ensures jz0 == m0 * w0 + n0
  {
    assert (m0 * w0) * (k * l) == (m0 * k) * (w0 * l);
    assert n0 * (k * l) == (n0 * k) * l;
    assert (1.0 + 3.0 * rho) * (2.0 * rho - 1.0) == 6.0 * (rho * rho) - rho - 1.0;
    assert (-rho) * l == -6.0 * (rho * rho);
    Cancel(jz0, m0 * w0 + n0, k * l);
  }

  // ----- the formulas on polynomials

  /** The intermediate time of the step that ends at t. */
  function MidTime(c: TwoStage, dt: real, t: real): real {
    t + c.z * dt
  }

  function StepX(c: TwoStage, dt: real, xm1: real, xpm1: real, xpz: real, xp: real): real {
    xm1 + dt * (c.w1 * xpm1 + c.wz * xpz + c.w0 * xp)
  }

  function StepXz(c: TwoStage, dt: real, x: real, xm1: real, xpm1: real, xp: real): real {
    c.m0 * x + c.m1 * xm1 + dt * (c.n0 * xp + c.n1 * xpm1)
  }

  function PredictedSlope(s: Slopes, dt: real, xm1: real, xpm1: real, xm2: real, xpm2: real): real
    requires dt != 0.0
  {
    (s.m0 * xm1 + s.m1 * xm2) / dt + s.n0 * xpm1 + s.n1 * xpm2
  }

  /** The weights integrate parabolas exactly over the step. */
  ghost predicate Quadrature(c: TwoStage) {
    && c.w1 + c.wz + c.w0 == 1.0
    && c.wz * c.z - c.w1 == -0.5
    && c.wz * (c.z * c.z) + c.w1 == 1.0 / 3.0
  }

  lemma RadauQuadrature()
    ensures Quadrature(RadauFor())
  {
  }

  lemma CubicQuadrature(rho: real)
    requires rho != 0.0 && rho != -1.0
    ensures Quadrature(CubicFor(rho))
  {
    hide CubicFor;
    CubicMoments(rho, CubicFor(rho), 1.0 + rho, 6.0 * rho);
  }

  lemma CubicMoments(rho: real, c: TwoStage, s: real, l: real)
    requires rho != 0.0 && rho != -1.0 && c == CubicFor(rho) && s == 1.0 + rho && l == 6.0 * rho
    ensures Quadrature(c)
  {
    hide CubicFor, CubicOver, Cleared, Divisors;
    CubicAgrees(rho);
    CubicBasis(rho, c, s, 1.0 + c.z, l);
    CubicWeights(rho, c, s, 1.0 + c.z, l);
    WeightMoments(rho, c.z, s, l, c.w1, c.wz);
  }

  lemma WeightMoments(rho: real, z: real, s: real, l: real, w1: real, wz: real)
    requires l != 0.0 && l == 6.0 * rho && s == 1.0 + rho && Cleared(z, s, -rho)
    requires Cleared(w1, l, rho * (2.0 - rho)) && Cleared(wz, l, s * s)
    ensures wz * z - w1 == -0.5 && wz * (z * z) + w1 == 1.0 / 3.0
  {
    assert (wz * z) * l == (wz * l) * z == s * s * z == s * (z * s);
    assert (wz * z - w1) * l == (wz * z) * l - w1 * l;
    Cancel(wz * z - w1, -0.5, l);
    assert (wz * (z * z)) * l == (wz * l) * (z * z) == (z * s) * (z * s) == rho * rho;
    assert (wz * (z * z) + w1) * l == (wz * (z * z)) * l + w1 * l;
    Cancel(wz * (z * z) + w1, 1.0 / 3.0, l);
  }

  /** The update of the state is exact for every polynomial of degree three. */
  lemma StepExact(c: TwoStage, q: Cubic, t: real, dt: real)
    requires Quadrature(c)
    ensures StepX(c, dt, q.At(t - dt), q.Slope(t - dt), q.Slope(MidTime(c, dt, t)), q.Slope(t)) == q.At(t)
  {
    var e := Local(q, t, dt);
    hide Cubic.At, Cubic.Slope, Local;
    LocalNodes(q, t, dt);
    LocalNode(q, t, dt, c.z, MidTime(c, dt, t));
    var s1, sz, s0 := q.Slope(t - dt), q.Slope(MidTime(c, dt, t)), q.Slope(t);
    assert dt * (c.w1 * s1 + c.wz * sz + c.w0 * s0) == c.w1 * (dt * s1) + c.wz * (dt * sz) + c.w0 * (dt * s0);
    QuadratureSum(c, e);
  }

  lemma QuadratureSum(c: TwoStage, e: Cubic)
    requires Quadrature(c)
    ensures e.At(-1.0) + (c.w1 * e.Slope(-1.0) + c.wz * e.Slope(c.z) + c.w0 * e.Slope(0.0)) == e.At(0.0)
  {
  }

  /** The intermediate state of method_cubic is exact for every polynomial of degree three. */
  lemma CubicMidExact(rho: real, q: Cubic, t: real, dt: real)
    requires rho != 0.0 && rho != -1.0
    ensures var c := CubicFor(rho);
      StepXz(c, dt, q.At(t), q.At(t - dt), q.Slope(t - dt), q.Slope(t)) == q.At(MidTime(c, dt, t))
  {
    hide Cubic.At, Cubic.Slope, Cm0, Cm1, Cn0, Cn1, CubicFor;
    var c := CubicFor(rho);
    CubicBasis(rho, c, 1.0 + rho, 1.0 + c.z, 6.0 * rho);
    var z, x0, x1, s0, s1 := c.z, q.At(t), q.At(t - dt), q.Slope(t), q.Slope(t - dt);
    var u := MidTime(c, dt, t);
    HermiteAtTime(q, t, dt, z, u);
    assert StepXz(c, dt, x0, x1, s1, s0) == Cm0(z) * x0 + Cm1(z) * x1 + dt * (Cn0(z) * s0 + Cn1(z) * s1);
  }

  lemma HermiteAtTime(q: Cubic, t: real, h: real, xi: real, u: real)
    requires u == t + xi * h
    ensures Cm0(xi) * q.At(t) + Cm1(xi) * q.At(t - h) + h * (Cn0(xi) * q.Slope(t) + Cn1(xi) * q.Slope(t - h)) == q.At(u)
  {
    HermiteExact(q, t, h, xi);
  }

  /** The intermediate state of the Radau II method comes from a parabola: it is exact just up to degree two. */
  lemma RadauMidExact(q: Cubic, t: real, dt: real)
    ensures var c := RadauFor();
      (StepXz(c, dt, q.At(t), q.At(t - dt), q.Slope(t - dt), q.Slope(t)) == q.At(MidTime(c, dt, t)))
      <==> q.c3 == 0.0 || dt == 0.0
  {
    hide Cubic.At, Cubic.Slope, Local, RadauFor;
    var c, e := RadauFor(), Local(q, t, dt);
    RadauConstants();
    LocalLeading(q, t, dt);
    LocalNodes(q, t, dt);
    LocalNode(q, t, dt, c.z, MidTime(c, dt, t));
    RadauDefect(e);
    assert dt * (c.n0 * q.Slope(t) + c.n1 * q.Slope(t - dt)) == c.n0 * (dt * q.Slope(t));
    DefectVanishes(4.0 / 27.0, q.c3, dt, e.c3);
  }

  lemma RadauDefect(e: Cubic)
    ensures 5.0 / 9.0 * e.At(0.0) + 4.0 / 9.0 * e.At(-1.0) - 2.0 / 9.0 * e.Slope(0.0)
         == e.At(-2.0 / 3.0) - e.c3 * (4.0 / 27.0)
  {
  }

  /** method_cubic predicts the derivatives of every polynomial of degree three exactly, at both stages. */
  lemma CubicPredictsExactly(rho: real, q: Cubic, t: real, dt: real)
    requires rho != 0.0 && rho != -1.0 && dt != 0.0
    ensures var c := CubicFor(rho);
      && PredictedSlope(c.full, dt, q.At(t), q.Slope(t), q.At(t - dt), q.Slope(t - dt)) == q.Slope(t + dt)
      && PredictedSlope(c.mid, dt, q.At(t), q.Slope(t), q.At(t - dt), q.Slope(t - dt))
         == q.Slope(MidTime(c, dt, t + dt))
  {
    hide Cubic.At, Cubic.Slope, Cm0p, Cm1p, Cn0p, Cn1p, CubicFor, MidTime, PredictedSlope, HermiteSlopes;
    var c := CubicFor(rho);
    CubicBasis(rho, c, 1.0 + rho, 1.0 + c.z, 6.0 * rho);
    assert MidTime(c, dt, t + dt) == t + (1.0 + c.z) * dt by { MidFromLast(c, dt, t); }
    SlopesPredict(q, t, dt, 1.0, t + dt);
    SlopesPredict(q, t, dt, 1.0 + c.z, MidTime(c, dt, t + dt));
  }

  lemma MidFromLast(c: TwoStage, dt: real, t: real)
    ensures MidTime(c, dt, t + dt) == t + (1.0 + c.z) * dt
  {
  }

  lemma SlopesPredict(q: Cubic, t: real, dt: real, xi: real, u: real)
    requires dt != 0.0 && u == t + xi * dt
    ensures PredictedSlope(HermiteSlopes(xi), dt, q.At(t), q.Slope(t), q.At(t - dt), q.Slope(t - dt)) == q.Slope(u)
  {
    hide Cubic.At, Cubic.Slope, Cm0p, Cm1p, Cn0p, Cn1p;
    CubicPredictorExact(q, t, dt, xi);
  }

  lemma RadauConstants()
    ensures var c := RadauFor();
      && c.z == -2.0 / 3.0 && c.m0 == 5.0 / 9.0 && c.m1 == 4.0 / 9.0 && c.n0 == -2.0 / 9.0 && c.n1 == 0.0
      && c.full == Slopes(-2.0, 2.0, 3.0, 0.0) && c.mid == Slopes(-2.0 / 3.0, 2.0 / 3.0, 5.0 / 3.0, 0.0)
  {
  }

  /** The Radau II method predicts them from a parabola: either one is exact just up to degree two. */
  lemma RadauPredictsExactly(q: Cubic, t: real, dt: real)
    requires dt != 0.0
    ensures var c := RadauFor();
      && (PredictedSlope(c.full, dt, q.At(t), q.Slope(t), q.At(t - dt), q.Slope(t - dt)) == q.Slope(t + dt)
          <==> q.c3 == 0.0)
      && (PredictedSlope(c.mid, dt, q.At(t), q.Slope(t), q.At(t - dt), q.Slope(t - dt))
          == q.Slope(MidTime(c, dt, t + dt))
          <==> q.c3 == 0.0)
  {
    hide Cubic.At, Cubic.Slope, Local, RadauFor, PredictedSlope;
    var c, e := RadauFor(), Local(q, t, dt);
    RadauConstants();
    LocalLeading(q, t, dt);
    LocalNodes(q, t, dt);
    LocalNode(q, t, dt, 1.0 / 3.0, MidTime(c, dt, t + dt));
    ParabolaSlope(e);
    var x0, x1, s0, s1 := q.At(t), q.At(t - dt), q.Slope(t), q.Slope(t - dt);
    ScaledPrediction(c.full, dt, x0, s0, x1, s1);
    ScaledPrediction(c.mid, dt, x0, s0, x1, s1);
    PredictionError(dt, PredictedSlope(c.full, dt, x0, s0, x1, s1), q.Slope(t + dt), 5.0, q.c3, e.c3);
    PredictionError(dt, PredictedSlope(c.mid, dt, x0, s0, x1, s1), q.Slope(MidTime(c, dt, t + dt)), 1.0, q.c3, e.c3);
  }

  lemma PredictionError(dt: real, p: real, r: real, k: real, c3: real, e3: real)
    requires dt != 0.0 && k != 0.0 && e3 == c3 * (dt * dt * dt) && dt * r - dt * p == e3 * k
    ensures p == r <==> c3 == 0.0
  {
  }

  lemma ScaledPrediction(s: Slopes, dt: real, xm1: real, xpm1: real, xm2: real, xpm2: real)
    requires dt != 0.0 && s.n1 == 0.0
    ensures dt * PredictedSlope(s, dt, xm1, xpm1, xm2, xpm2) == s.m0 * xm1 + s.m1 * xm2 + s.n0 * (dt * xpm1)
  {
  }

  lemma ParabolaSlope(e: Cubic)
    ensures -2.0 * e.At(0.0) + 2.0 * e.At(-1.0) + 3.0 * e.Slope(0.0) == e.Slope(1.0) - e.c3 * 5.0
    ensures -2.0 / 3.0 * e.At(0.0) + 2.0 / 3.0 * e.At(-1.0) + 5.0 / 3.0 * e.Slope(0.0) == e.Slope(1.0 / 3.0) - e.c3
  {
  }

  // ----- the asymptotic radius

  /** For infinitely stiff modes, where the states vanish, a step of method_cubic multiplies the derivative by rho. */
  lemma CubicAsymptotics(rho: real, dt: real, xpm1: real, xp: real)
    requires rho != 0.0 && rho != -1.0 && dt != 0.0
    ensures StepXz(CubicFor(rho), dt, 0.0, 0.0, xpm1, xp) == 0.0 <==> xp == rho * xpm1
  {
    hide CubicFor, CubicOver, Cleared, Divisors;
    var c := CubicFor(rho);
    CubicBasis(rho, c, 1.0 + rho, 1.0 + c.z, 6.0 * rho);
    CubicSecond(rho, c.z, c.n0, c.n1);
    StiffStep(rho, dt, c.n0, c.n1, xpm1, xp);
  }

  lemma StiffStep(rho: real, dt: real, n0: real, n1: real, xpm1: real, xp: real)
    requires dt != 0.0 && n0 != 0.0 && n1 == -(rho * n0)
    ensures dt * (n0 * xp + n1 * xpm1) == 0.0 <==> xp == rho * xpm1
  {
    var d := xp - rho * xpm1;
    assert n0 * xp + n1 * xpm1 == n0 * d;
    if d != 0.0 {
      NonZero2(n0, d);
      NonZero2(dt, n0 * d);
    }
  }

  lemma CubicSecond(rho: real, z: real, n0: real, n1: real)
    requires rho != 0.0 && rho != -1.0 && Cleared(z, 1.0 + rho, -rho)
    requires n0 == z + 2.0 * z * z + z * z * z && n1 == z * z + z * z * z
    ensures n1 == -(rho * n0) && n0 != 0.0
  {
    var y := 1.0 + z;
    CubicNodes(rho, z, 1.0 + rho, y, 6.0 * rho);
    assert n0 == (z * y) * y && n1 == (z * y) * z;
    assert z == -(rho * y);
    assert (z * y) * (rho * y) == rho * ((z * y) * y);
    NonZero2(z, y);
    NonZero2(z * y, y);
  }

  /** The Radau II method damps them at once. */
  lemma RadauAsymptotics(dt: real, xpm1: real, xp: real)
    requires dt != 0.0
    ensures StepXz(RadauFor(), dt, 0.0, 0.0, xpm1, xp) == 0.0 <==> xp == 0.0
  {
  }
}

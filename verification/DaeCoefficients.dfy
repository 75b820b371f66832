// The coefficients of the integration methods of utils/dae-intg.cc, and what makes them right:
// they agree with each other, they have the advertised order, and rho is their asymptotic radius.
module DaeCoefficients {

  // ----- the cubic Hermite basis on the nodes 0 and -1

  function Cm0(xi: real): real {
    1.0 - 3.0 * xi * xi - 2.0 * xi * xi * xi
  }

  function Cm0p(xi: real): real {
    -6.0 * xi - 6.0 * xi * xi
  }

  function Cm1(xi: real): real {
    3.0 * xi * xi + 2.0 * xi * xi * xi
  }

  function Cm1p(xi: real): real {
    6.0 * xi + 6.0 * xi * xi
  }

  function Cn0(xi: real): real {
    xi + 2.0 * xi * xi + xi * xi * xi
  }

  function Cn0p(xi: real): real {
    1.0 + 4.0 * xi + 3.0 * xi * xi
  }

  function Cn1(xi: real): real {
    xi * xi + xi * xi * xi
  }

  function Cn1p(xi: real): real {
    2.0 * xi + 3.0 * xi * xi
  }

  // ----- the parabolic basis of the Radau II method

  function RadauCm0(xi: real): real {
    1.0 - xi * xi
  }

  function RadauCm0p(xi: real): real {
    -2.0 * xi
  }

  function RadauCm1(xi: real): real {
    xi * xi
  }

  function RadauCm1p(xi: real): real {
    2.0 * xi
  }

  function RadauCn0(xi: real): real {
    xi + xi * xi
  }

  function RadauCn0p(xi: real): real {
    1.0 + 2.0 * xi
  }

  /** Each derivative function is the slope of its basis function: the remainder is of second order. */
  lemma DerivativesAgree(xi: real, h: real)
    ensures Cm0(xi + h) == Cm0(xi) + h * Cm0p(xi) - h * h * (3.0 + 6.0 * xi + 2.0 * h)
    ensures Cm1(xi + h) == Cm1(xi) + h * Cm1p(xi) + h * h * (3.0 + 6.0 * xi + 2.0 * h)
    ensures Cn0(xi + h) == Cn0(xi) + h * Cn0p(xi) + h * h * (2.0 + 3.0 * xi + h)
    ensures Cn1(xi + h) == Cn1(xi) + h * Cn1p(xi) + h * h * (1.0 + 3.0 * xi + h)
    ensures RadauCm0(xi + h) == RadauCm0(xi) + h * RadauCm0p(xi) - h * h
    ensures RadauCm1(xi + h) == RadauCm1(xi) + h * RadauCm1p(xi) + h * h
    ensures RadauCn0(xi + h) == RadauCn0(xi) + h * RadauCn0p(xi) + h * h
  {
  }

  // ----- polynomials

  /** A cubic polynomial and its derivative. */
  datatype Cubic = Cubic(c0: real, c1: real, c2: real, c3: real) {
    ghost function At(t: real): real {
      c0 + c1 * t + c2 * (t * t) + c3 * (t * t * t)
    }

    ghost function Slope(t: real): real {
      c1 + 2.0 * c2 * t + 3.0 * c3 * (t * t)
    }
  }

  /** The polynomial seen from time t in units of the step h. */
  ghost function Local(q: Cubic, t: real, h: real): Cubic {
    Cubic(q.At(t), q.Slope(t) * h, (q.c2 + 3.0 * q.c3 * t) * (h * h), q.c3 * (h * h * h))
  }

  lemma LocalAgrees(q: Cubic, t: real, h: real, xi: real)
    ensures q.At(t + xi * h) == Local(q, t, h).At(xi)
    ensures h * q.Slope(t + xi * h) == Local(q, t, h).Slope(xi)
  {
    hide Cubic.At, Cubic.Slope, Local;
    LocalStep(q, t, h, xi, xi * h);
  }

  lemma LocalLeading(q: Cubic, t: real, dt: real)
    ensures Local(q, t, dt).c3 == q.c3 * (dt * dt * dt)
  {
  }

  lemma LocalStep(q: Cubic, t: real, h: real, xi: real, d: real)
    requires d == xi * h
    ensures q.At(t + d) == Local(q, t, h).At(xi) && h * q.Slope(t + d) == Local(q, t, h).Slope(xi)
  {
    hide Cubic.At, Cubic.Slope, Local;
    var d1, d2 := q.Slope(t), q.c2 + 3.0 * q.c3 * t;
    LocalValues(q, t, h, xi);
    Recentre(q, t, d);
    InUnits(d1, d2, q.c3, xi, h, d);
    assert q.Slope(t + d) == d1 + 2.0 * d2 * d + 3.0 * q.c3 * (d * d);
  }

  lemma LocalValues(q: Cubic, t: real, h: real, xi: real)
    ensures var d1, d2 := q.Slope(t), q.c2 + 3.0 * q.c3 * t;
      && Local(q, t, h).At(xi) == q.At(t) + (d1 * h) * xi + (d2 * (h * h)) * (xi * xi)
         + (q.c3 * (h * h * h)) * (xi * xi * xi)
      && Local(q, t, h).Slope(xi) == d1 * h + 2.0 * (d2 * (h * h)) * xi + 3.0 * (q.c3 * (h * h * h)) * (xi * xi)
  {
    var e := Local(q, t, h);
    assert e.c0 == q.At(t) && e.c1 == q.Slope(t) * h;
    assert e.c2 == (q.c2 + 3.0 * q.c3 * t) * (h * h) && e.c3 == q.c3 * (h * h * h);
    hide Local;
    assert e.At(xi) == e.c0 + e.c1 * xi + e.c2 * (xi * xi) + e.c3 * (xi * xi * xi);
  }

  /** The expansion of the polynomial around t. */
  lemma Recentre(q: Cubic, t: real, d: real)
    ensures q.At(t + d) == q.At(t) + q.Slope(t) * d + (q.c2 + 3.0 * q.c3 * t) * (d * d) + q.c3 * (d * d * d)
    ensures q.Slope(t + d) == q.Slope(t) + 2.0 * (q.c2 + 3.0 * q.c3 * t) * d + 3.0 * q.c3 * (d * d)
  {
    var u, t2, d2, td := t + d, t * t, d * d, t * d;
    assert u * u == t2 + 2.0 * td + d2;
    assert u * u * u == (t2 + 2.0 * td + d2) * u;
    assert (t2 + 2.0 * td + d2) * u == t * t2 + 3.0 * (t * td) + 3.0 * (td * d) + d * d2;
    assert q.c2 * (u * u) == q.c2 * t2 + 2.0 * (q.c2 * td) + q.c2 * d2;
    assert q.c3 * (u * u) == q.c3 * t2 + 2.0 * (q.c3 * td) + q.c3 * d2;
    assert q.c3 * (u * u * u) == q.c3 * (t * t2) + 3.0 * (q.c3 * (t * td)) + 3.0 * (q.c3 * (td * d)) + q.c3 * (d * d2);
  }

  /** The expansion in units of the step h. */
  lemma InUnits(d1: real, d2: real, d3: real, xi: real, h: real, d: real)
    requires d == xi * h
    ensures d1 * d + d2 * (d * d) + d3 * (d * d * d)
         == (d1 * h) * xi + (d2 * (h * h)) * (xi * xi) + (d3 * (h * h * h)) * (xi * xi * xi)
    ensures h * (d1 + 2.0 * d2 * d + 3.0 * d3 * (d * d))
         == d1 * h + 2.0 * (d2 * (h * h)) * xi + 3.0 * (d3 * (h * h * h)) * (xi * xi)
  {
    assert d * d == (h * h) * (xi * xi);
    assert d * d * d == (h * h * h) * (xi * xi * xi);
    assert h * d == (h * h) * xi;
    assert h * (d * d) == (h * h * h) * (xi * xi);
  }

  /** The Hermite basis reproduces every cubic from its values and slopes at the two nodes. */
  lemma HermiteExact(q: Cubic, t: real, h: real, xi: real)
    ensures Cm0(xi) * q.At(t) + Cm1(xi) * q.At(t - h) + h * (Cn0(xi) * q.Slope(t) + Cn1(xi) * q.Slope(t - h))
         == q.At(t + xi * h)
  {
    var e := Local(q, t, h);
    LocalNodes(q, t, h);
    LocalAgrees(q, t, h, xi);
    LocalHermite(e, xi);
    hide Cm0, Cm1, Cn0, Cn1, Cubic.At, Cubic.Slope, Local;
    DistributeStep(h, Cn0(xi), q.Slope(t), Cn1(xi), q.Slope(t - h));
  }

  lemma DistributeStep(h: real, a: real, x: real, b: real, y: real)
    ensures h * (a * x + b * y) == a * (h * x) + b * (h * y)
  {
  }

  lemma LocalHermite(e: Cubic, xi: real)
    ensures Cm0(xi) * e.At(0.0) + Cm1(xi) * e.At(-1.0) + (Cn0(xi) * e.Slope(0.0) + Cn1(xi) * e.Slope(-1.0)) == e.At(xi)
  {
  }

  // ----- the multistep method

  /** x = a1*xm1 + a2*xm2 + dt*(b0*xp + b1*xpm1 + b2*xpm2). */
  datatype Multistep = Multistep(a1: real, a2: real, b0: real, b1: real, b2: real)

  function MultistepDivisor(rho: real): real {
    4.0 - (1.0 - rho) * (1.0 - rho)
  }

  function MultistepFor(rho: real): Multistep
    requires MultistepDivisor(rho) != 0.0
  {
    var beta := (4.0 * rho * rho - (1.0 - rho) * (1.0 - rho)) / (4.0 - (1.0 - rho) * (1.0 - rho));
    var delta := (1.0 - rho) * (1.0 - rho) / (2.0 * (4.0 - (1.0 - rho) * (1.0 - rho)));
    Multistep(1.0 - beta, beta, delta + 0.5, 0.5 * beta + 0.5 - 2.0 * delta, 0.5 * beta + delta)
  }

  function Advance(c: Multistep, dt: real, xp: real, xm1: real, xpm1: real, xm2: real, xpm2: real): real {
    c.a1 * xm1 + c.a2 * xm2 + dt * (c.b0 * xp + c.b1 * xpm1 + c.b2 * xpm2)
  }

  /** Clearing the denominators: beta*D, 2*delta*D and what follows for the coefficients. */
  lemma MultistepCleared(rho: real)
    requires MultistepDivisor(rho) != 0.0
    ensures var c, d := MultistepFor(rho), MultistepDivisor(rho);
      && c.a1 == 1.0 - c.a2 && c.a2 * d == 4.0 * (rho * rho) - (1.0 - rho) * (1.0 - rho)
      && c.b0 * d == 2.0 && c.b1 * d == 4.0 * rho && c.b2 * d == 2.0 * (rho * rho)
  {
  }

  lemma Cancel(x: real, y: real, d: real)
    requires d != 0.0 && x * d == y * d
    ensures x == y
  {
  }

  /** How far the method is from third order. */
  ghost function Defect(c: Multistep): real {
    3.0 * c.b1 + 12.0 * c.b2 - c.a1 - 8.0 * c.a2
  }

  /** The order conditions up to two hold for every rho, and the third never does. */
  lemma MultistepOrder(rho: real)
    requires MultistepDivisor(rho) != 0.0
    ensures var c := MultistepFor(rho);
      && c.a1 + c.a2 == 1.0
      && c.b0 + c.b1 + c.b2 == c.a1 + 2.0 * c.a2
      && c.a1 + 4.0 * c.a2 == 2.0 * c.b1 + 4.0 * c.b2
      && Defect(c) != 0.0
  {
    MultistepCleared(rho);
    var c, d := MultistepFor(rho), MultistepDivisor(rho);
    assert d == 3.0 + 2.0 * rho - rho * rho;
    Sum3(c.b0, c.b1, c.b2, d);
    Cancel(c.b0 + c.b1 + c.b2, 1.0 + c.a2, d);
    Sum3(0.0, 2.0 * c.b1, 4.0 * c.b2, d);
    Cancel(2.0 * c.b1 + 4.0 * c.b2, 1.0 + 3.0 * c.a2, d);
    DefectCleared(rho, c, d);
  }

  lemma Sum3(a: real, b: real, c: real, d: real)
    ensures (a + b + c) * d == a * d + b * d + c * d
  {
  }

  lemma DefectCleared(rho: real, c: Multistep, d: real)
    requires c.a1 == 1.0 - c.a2 && c.a2 * d == 4.0 * (rho * rho) - (1.0 - rho) * (1.0 - rho)
    requires c.b1 * d == 4.0 * rho && c.b2 * d == 2.0 * (rho * rho) && d == 4.0 - (1.0 - rho) * (1.0 - rho)
    ensures Defect(c) != 0.0
  {
    var k := Defect(c);
    assert k == 3.0 * c.b1 + 12.0 * c.b2 - 1.0 - 7.0 * c.a2;
    assert k * d == 3.0 * (c.b1 * d) + 12.0 * (c.b2 * d) - d - 7.0 * (c.a2 * d);
    var e, f := (1.0 - rho) * (1.0 - rho), rho * rho;
    assert e == 1.0 - 2.0 * rho + f;
    assert k * d == 2.0 * (1.0 + f + e);
    NonNegativeSquare(rho, f);
    NonNegativeSquare(1.0 - rho, e);
  }

  lemma NonNegativeSquare(a: real, q: real)
    requires q == a * a
    ensures q >= 0.0
  {
  }

  /** Samples of a polynomial satisfy the formula exactly when it has degree at most two. */
  lemma MultistepExact(rho: real, q: Cubic, t: real, dt: real)
    requires MultistepDivisor(rho) != 0.0
    ensures Advance(MultistepFor(rho), dt, q.Slope(t), q.At(t - dt), q.Slope(t - dt), q.At(t - 2.0 * dt),
                    q.Slope(t - 2.0 * dt))
              == q.At(t)
       <==> q.c3 == 0.0 || dt == 0.0
  {
    hide MultistepFor, MultistepDivisor, Advance, Defect, Cubic.At, Cubic.Slope, Local;
    var c, e := MultistepFor(rho), Local(q, t, dt);
    LocalLeading(q, t, dt);
    MultistepOrder(rho);
    LocalNodes(q, t, dt);
    LocalAdvance(c, e, dt, q.Slope(t), q.Slope(t - dt), q.Slope(t - 2.0 * dt));
    DefectVanishes(Defect(c), q.c3, dt, e.c3);
  }

  lemma LocalAdvance(c: Multistep, e: Cubic, dt: real, s0: real, s1: real, s2: real)
    requires c.a1 + c.a2 == 1.0 && c.b0 + c.b1 + c.b2 == c.a1 + 2.0 * c.a2 &&
             c.a1 + 4.0 * c.a2 == 2.0 * c.b1 + 4.0 * c.b2
    requires dt * s0 == e.Slope(0.0) && dt * s1 == e.Slope(-1.0) && dt * s2 == e.Slope(-2.0)
    ensures Advance(c, dt, s0, e.At(-1.0), s1, e.At(-2.0), s2) == e.At(0.0) + e.c3 * Defect(c)
  {
  }

  lemma DefectVanishes(k: real, c3: real, dt: real, e3: real)
    requires k != 0.0 && e3 == c3 * (dt * dt * dt)
    ensures e3 * k == 0.0 <==> c3 == 0.0 || dt == 0.0
  {
  }

  lemma NonZero2(a: real, b: real)
    requires a != 0.0 && b != 0.0
    ensures a * b != 0.0
  {
  }

  /** rho is the asymptotic radius: for infinitely stiff modes the method multiplies by -rho, twice over. */
  lemma MultistepAsymptotics(rho: real, x: real)
    requires MultistepDivisor(rho) != 0.0
    ensures var c := MultistepFor(rho);
      c.b0 != 0.0 && c.b0 * (x * x) + c.b1 * x + c.b2 == c.b0 * ((x + rho) * (x + rho))
  {
  }

  // ----- the extrapolated derivatives of the predictors

  /** method_cubic: the slope at xi steps past t-dt of the cubic through the last two states. */
  ghost function CubicSlope(xi: real, dt: real, xm1: real, xpm1: real, xm2: real, xpm2: real): real
    requires dt != 0.0
  {
    (Cm0p(xi) * xm1 + Cm1p(xi) * xm2) / dt + Cn0p(xi) * xpm1 + Cn1p(xi) * xpm2
  }

  /** method_multistep: the same combination without the division by dt, and with dt in the second part. */
  function MultistepSlope(dt: real, xm1: real, xpm1: real, xm2: real, xpm2: real): real {
    Cm0p(1.0) * xm1 + Cm1p(1.0) * xm2 + dt * (Cn0p(1.0) * xpm1 + Cn1p(1.0) * xpm2)
  }

  lemma LocalSlope(e: Cubic, xi: real)
    ensures Cm0p(xi) * e.At(0.0) + Cm1p(xi) * e.At(-1.0) + (Cn0p(xi) * e.Slope(0.0) + Cn1p(xi) * e.Slope(-1.0))
            == e.Slope(xi)
  {
  }

  /** The cubic predictor extrapolates every cubic exactly. */
  lemma CubicPredictorExact(q: Cubic, t: real, dt: real, xi: real)
    requires dt != 0.0
    ensures CubicSlope(xi, dt, q.At(t), q.Slope(t), q.At(t - dt), q.Slope(t - dt)) == q.Slope(t + xi * dt)
  {
    var e := Local(q, t, dt);
    LocalNodes(q, t, dt);
    LocalAgrees(q, t, dt, xi);
    LocalSlope(e, xi);
    hide Cm0p, Cm1p, Cn0p, Cn1p, Cubic.At, Cubic.Slope, Local;
    SlopeArithmetic(dt, Cm0p(xi) * q.At(t) + Cm1p(xi) * q.At(t - dt), Cn0p(xi), q.Slope(t), Cn1p(xi), q.Slope(t - dt),
      q.Slope(t + xi * dt), e.Slope(0.0), e.Slope(-1.0));
  }

  /** The states at t, t-dt and t-2dt in local terms. */
  lemma LocalNodes(q: Cubic, t: real, dt: real)
    ensures var e := Local(q, t, dt);
      && q.At(t) == e.At(0.0) && dt * q.Slope(t) == e.Slope(0.0)
      && q.At(t - dt) == e.At(-1.0) && dt * q.Slope(t - dt) == e.Slope(-1.0)
      && q.At(t - 2.0 * dt) == e.At(-2.0) && dt * q.Slope(t - 2.0 * dt) == e.Slope(-2.0)
      && q.At(t + dt) == e.At(1.0) && dt * q.Slope(t + dt) == e.Slope(1.0)
  {
    hide Cubic.At, Cubic.Slope, Local;
    LocalNode(q, t, dt, 0.0, t);
    LocalNode(q, t, dt, -1.0, t - dt);
    LocalNode(q, t, dt, -2.0, t - 2.0 * dt);
    LocalNode(q, t, dt, 1.0, t + dt);
  }

  lemma LocalNode(q: Cubic, t: real, dt: real, xi: real, u: real)
    requires u == t + xi * dt
    ensures q.At(u) == Local(q, t, dt).At(xi) && dt * q.Slope(u) == Local(q, t, dt).Slope(xi)
  {
    hide Cubic.At, Cubic.Slope, Local;
    LocalAgrees(q, t, dt, xi);
  }

  lemma SlopeArithmetic(dt: real, m: real, n0: real, s0: real, n1: real, s1: real, s: real, e0: real, e1: real)
    requires dt != 0.0 && dt * s0 == e0 && dt * s1 == e1 && m + (n0 * e0 + n1 * e1) == dt * s
    ensures m / dt + n0 * s0 + n1 * s1 == s
  {
  }

  /** The multistep predictor is dt times the extrapolated slope, so it is exact only for a unit step or
      where the slope vanishes. */
  lemma MultistepPredictor(q: Cubic, t: real, dt: real)
    requires dt != 0.0
    ensures MultistepSlope(dt, q.At(t), q.Slope(t), q.At(t - dt), q.Slope(t - dt)) == dt * q.Slope(t + dt)
    ensures MultistepSlope(dt, q.At(t), q.Slope(t), q.At(t - dt), q.Slope(t - dt)) == q.Slope(t + dt)
       <==> dt == 1.0 || q.Slope(t + dt) == 0.0
  {
    var e := Local(q, t, dt);
    LocalNodes(q, t, dt);
    LocalSlope(e, 1.0);
    hide Cm0p, Cm1p, Cn0p, Cn1p, Cubic.At, Cubic.Slope, Local;
    ScaledSlope(dt, Cm0p(1.0) * q.At(t) + Cm1p(1.0) * q.At(t - dt), Cn0p(1.0), q.Slope(t), Cn1p(1.0), q.Slope(t - dt),
      q.Slope(t + dt), e.Slope(0.0), e.Slope(-1.0));
    UnitStep(dt, q.Slope(t + dt), MultistepSlope(dt, q.At(t), q.Slope(t), q.At(t - dt), q.Slope(t - dt)));
  }

  lemma ScaledSlope(dt: real, m: real, n0: real, s0: real, n1: real, s1: real, s: real, e0: real, e1: real)
    requires dt * s0 == e0 && dt * s1 == e1 && m + (n0 * e0 + n1 * e1) == dt * s
    ensures m + dt * (n0 * s0 + n1 * s1) == dt * s
  {
  }

  lemma UnitStep(dt: real, s: real, r: real)
    requires r == dt * s
    ensures r == s <==> dt == 1.0 || s == 0.0
  {
  }

  /** x(t) = t with a step of one half: the multistep predictor proposes half the slope. */
  lemma MultistepPredictorExample(t: real)
    ensures var q := Cubic(0.0, 1.0, 0.0, 0.0);
      q.Slope(t + 0.5) == 1.0 && MultistepSlope(0.5, q.At(t), q.Slope(t), q.At(t - 0.5), q.Slope(t - 0.5)) == 0.5
  {
  }

  lemma LinearSlope(q: Cubic, u: real)
    requires q.c2 == 0.0 && q.c3 == 0.0
    ensures q.Slope(u) == q.c1
  {
  }
}

// The order of the two-stage methods of utils/dae-intg.cc: on which polynomials of degree four the update of the state
// is still exact.
module TwoStageOrder {
  import Sums
  import opened DaeCoefficients
  import opened TwoStageCoefficients

  ghost function Cube(x: real): real {
    x * x * x
  }

  ghost function Fourth(x: real): real {
    x * x * x * x
  }

  datatype Quartic = Quartic(low: Cubic, c4: real) {
    ghost function At(s: real): real {
      low.At(s) + c4 * Fourth(s)
    }

    ghost function Slope(s: real): real {
      low.Slope(s) + 4.0 * c4 * Cube(s)
    }
  }

  /** What is left of the polynomial without the fourth power of the distance from t. */
  ghost function Rest(p: Quartic, t: real): Cubic {
    Cubic(p.low.c0 - p.c4 * Fourth(t), p.low.c1 + 4.0 * p.c4 * Cube(t),
          p.low.c2 - 6.0 * p.c4 * (t * t), p.low.c3 + 4.0 * p.c4 * t)
  }

  lemma About(p: Quartic, t: real, s: real, d: real)
    requires s == t + d
    ensures p.At(s) == Rest(p, t).At(s) + p.c4 * Fourth(d)
    ensures p.Slope(s) == Rest(p, t).Slope(s) + 4.0 * p.c4 * Cube(d)
  {
    hide Cube, Fourth, Cubic.At, Cubic.Slope;
    AboutRest(p.low, Rest(p, t), p.c4, t, s, d, t * t, Cube(t), Fourth(t), Cube(s), Fourth(s), Cube(d), Fourth(d));
  }

  lemma AboutRest(q: Cubic, r: Cubic, c4: real, t: real, s: real, d: real, t2: real, t3: real, t4: real,
                  s3: real, s4: real, d3: real, d4: real)
    requires s == t + d && t2 == t * t && t3 == Cube(t) && t4 == Fourth(t)
    requires s3 == Cube(s) && s4 == Fourth(s) && d3 == Cube(d) && d4 == Fourth(d)
    requires r == Cubic(q.c0 - c4 * t4, q.c1 + 4.0 * c4 * t3, q.c2 - 6.0 * c4 * t2, q.c3 + 4.0 * c4 * t)
    ensures q.At(s) + c4 * s4 == r.At(s) + c4 * d4
    ensures q.Slope(s) + 4.0 * c4 * s3 == r.Slope(s) + 4.0 * c4 * d3
  {
    Powers(t, s, d);
    hide Cube, Fourth;
    AboutAt(q, r, c4, t, t2, t3, t4, s, s * s, s * s * s, s4, d4);
    AboutSlope(q, r, c4, t, t2, t3, s, s * s, s3, d3);
  }

  lemma AboutAt(q: Cubic, r: Cubic, c4: real, t: real, t2: real, t3: real, t4: real,
                s: real, s2: real, s3: real, s4: real, d4: real)
    requires s2 == s * s && s3 == s * s * s
    requires d4 == s4 - 4.0 * (t * s3) + 6.0 * (t2 * s2) - 4.0 * (t3 * s) + t4
    requires r == Cubic(q.c0 - c4 * t4, q.c1 + 4.0 * c4 * t3, q.c2 - 6.0 * c4 * t2, q.c3 + 4.0 * c4 * t)
    ensures q.At(s) + c4 * s4 == r.At(s) + c4 * d4
  {
    hide Cubic.At, Cubic.Slope;
    AtWith(q, s, s2, s3);
    AtWith(r, s, s2, s3);
    RestAt(q.c0, q.c1, q.c2, q.c3, c4, t, t2, t3, t4, s, s2, s3, r);
    FourthGap(c4, t4, t3 * s, t2 * s2, t * s3, s4, d4);
  }

  lemma AtWith(q: Cubic, s: real, s2: real, s3: real)
    requires s2 == s * s && s3 == s * s * s
    ensures q.At(s) == q.c0 + q.c1 * s + q.c2 * s2 + q.c3 * s3
  {
  }

  lemma AboutSlope(q: Cubic, r: Cubic, c4: real, t: real, t2: real, t3: real, s: real, s2: real, s3: real, d3: real)
    requires s2 == s * s && d3 == s3 - 3.0 * (t * s2) + 3.0 * (t2 * s) - t3
    requires r.c1 == q.c1 + 4.0 * c4 * t3 && r.c2 == q.c2 - 6.0 * c4 * t2 && r.c3 == q.c3 + 4.0 * c4 * t
    ensures q.Slope(s) + 4.0 * c4 * s3 == r.Slope(s) + 4.0 * c4 * d3
  {
    assert q.Slope(s) == q.c1 + 2.0 * q.c2 * s + 3.0 * q.c3 * s2;
    assert r.Slope(s) == r.c1 + 2.0 * r.c2 * s + 3.0 * r.c3 * s2;
    hide Cubic.At, Cubic.Slope;
    RestSlope(q.c1, q.c2, q.c3, c4, t, t2, t3, s, s2, r);
    ThirdGap(c4, t3, t2 * s, t * s2, s3, d3);
  }

  lemma Powers(t: real, s: real, d: real)
    requires s == t + d
    ensures Cube(d) == Cube(s) - 3.0 * (t * (s * s)) + 3.0 * ((t * t) * s) - Cube(t)
    ensures Fourth(d)
         == Fourth(s) - 4.0 * (t * (s * s * s)) + 6.0 * ((t * t) * (s * s)) - 4.0 * (Cube(t) * s) + Fourth(t)
  {
    assert d == s - t;
  }

  lemma RestAt(c0: real, c1: real, c2: real, c3: real, c4: real, t: real, t2: real, t3: real, t4: real,
               s: real, s2: real, s3: real, r: Cubic)
    requires r == Cubic(c0 - c4 * t4, c1 + 4.0 * c4 * t3, c2 - 6.0 * c4 * t2, c3 + 4.0 * c4 * t)
    ensures r.c0 + r.c1 * s + r.c2 * s2 + r.c3 * s3
         == (c0 + c1 * s + c2 * s2 + c3 * s3)
            - c4 * t4 + 4.0 * (c4 * (t3 * s)) - 6.0 * (c4 * (t2 * s2)) + 4.0 * (c4 * (t * s3))
  {
  }

  lemma RestSlope(c1: real, c2: real, c3: real, c4: real, t: real, t2: real, t3: real, s: real, s2: real, r: Cubic)
    requires r.c1 == c1 + 4.0 * c4 * t3 && r.c2 == c2 - 6.0 * c4 * t2 && r.c3 == c3 + 4.0 * c4 * t
    ensures r.c1 + 2.0 * r.c2 * s + 3.0 * r.c3 * s2
         == (c1 + 2.0 * c2 * s + 3.0 * c3 * s2)
            + 4.0 * (c4 * t3) - 12.0 * (c4 * (t2 * s)) + 12.0 * (c4 * (t * s2))
  {
  }

  lemma FourthGap(c4: real, t4: real, t3s: real, t2s2: real, ts3: real, s4: real, d4: real)
    requires d4 == s4 - 4.0 * ts3 + 6.0 * t2s2 - 4.0 * t3s + t4
    ensures c4 * d4 == c4 * s4 - 4.0 * (c4 * ts3) + 6.0 * (c4 * t2s2) - 4.0 * (c4 * t3s) + c4 * t4
  {
  }

  lemma ThirdGap(c4: real, t3: real, t2s: real, ts2: real, s3: real, d3: real)
    requires d3 == s3 - 3.0 * ts2 + 3.0 * t2s - t3
    ensures 4.0 * c4 * d3 == 4.0 * c4 * s3 - 12.0 * (c4 * ts2) + 12.0 * (c4 * t2s) - 4.0 * (c4 * t3)
  {
  }

  /** The weights integrate third powers exactly as well. */
  ghost predicate FourthMoment(c: TwoStage) {
    c.wz * Cube(c.z) - c.w1 == -0.25
  }

  /** The update of a method with such weights is exact for a polynomial of degree four only if the next moment is right
      too, unless the degree is at most three. */
  lemma OrderExactly(c: TwoStage, p: Quartic, t: real, dt: real)
    requires Quadrature(c)
    ensures StepX(c, dt, p.At(t - dt), p.Slope(t - dt), p.Slope(MidTime(c, dt, t)), p.Slope(t)) == p.At(t)
       <==> p.c4 == 0.0 || dt == 0.0 || FourthMoment(c)
  {
    hide MidTime, StepX, FourthMoment, Quadrature, Rest, Cube;
    MidIs(c, dt, t, c.z * dt);
    OrderFrom(c, p, Rest(p, t), t, dt, c.z * dt, MidTime(c, dt, t), t - dt, c.wz * Cube(c.z) - c.w1);
  }

  lemma MidIs(c: TwoStage, dt: real, t: real, d: real)
    requires d == c.z * dt
    ensures MidTime(c, dt, t) == t + d
  {
  }

  lemma OrderFrom(c: TwoStage, p: Quartic, q: Cubic, t: real, dt: real, d: real, u: real, b: real, w: real)
    requires Quadrature(c) && q == Rest(p, t) && d == c.z * dt && u == MidTime(c, dt, t) == t + d && b == t - dt
    requires w == c.wz * Cube(c.z) - c.w1
    ensures StepX(c, dt, p.At(b), p.Slope(b), p.Slope(u), p.Slope(t)) == p.At(t)
       <==> p.c4 == 0.0 || dt == 0.0 || FourthMoment(c)
  {
    hide Quartic.At, Quartic.Slope, Cubic.At, Cubic.Slope, Rest, Quadrature, Cube, Fourth, StepX, MidTime;
    StepExact(c, q, t, dt);
    AboutItself(p, t);
    About(p, t, b, -dt);
    About(p, t, u, d);
    StepDefect(c, dt, p.c4, d, q.At(b), q.Slope(b), q.Slope(u), q.Slope(t), p.At(b), p.Slope(b), p.Slope(u), w);
    DefectVanishesAt(p.c4, dt, w, dt * dt, (p.c4 * Fourth(dt)) * (1.0 + 4.0 * w));
  }

  lemma AboutItself(p: Quartic, t: real)
    ensures p.At(t) == Rest(p, t).At(t) && p.Slope(t) == Rest(p, t).Slope(t)
  {
    hide Quartic.At, Quartic.Slope, Cubic.At, Cubic.Slope, Rest;
    About(p, t, t, 0.0);
  }

  /** What the fourth power adds to the update. */
  lemma StepDefect(c: TwoStage, dt: real, c4: real, d: real, x: real, s1: real, sz: real, s0: real,
                   x': real, s1': real, sz': real, w: real)
    requires d == c.z * dt && w == c.wz * Cube(c.z) - c.w1
    requires x' == x + c4 * Fourth(-dt) && s1' == s1 + 4.0 * c4 * Cube(-dt) && sz' == sz + 4.0 * c4 * Cube(d)
    ensures StepX(c, dt, x', s1', sz', s0) == StepX(c, dt, x, s1, sz, s0) + (c4 * Fourth(dt)) * (1.0 + 4.0 * w)
  {
    ScaledPowers(dt, c.z, d);
    hide Cube, Fourth;
    DefectTerms(c.w1, c.wz, c.w0, dt, c4, Cube(c.z), Cube(dt), Fourth(dt), x, s1, sz, s0);
  }

  lemma ScaledPowers(dt: real, z: real, d: real)
    requires d == z * dt
    ensures Cube(d) == Cube(z) * Cube(dt) && Cube(-dt) == -Cube(dt) && Fourth(-dt) == Fourth(dt) == dt * Cube(dt)
  {
  }

  lemma DefectTerms(w1: real, wz: real, w0: real, dt: real, c4: real, z3: real, h3: real, h4: real,
                    x: real, s1: real, sz: real, s0: real)
    requires h4 == dt * h3
    ensures (x + c4 * h4) + dt * (w1 * (s1 + 4.0 * c4 * -h3) + wz * (sz + 4.0 * c4 * (z3 * h3)) + w0 * s0)
         == x + dt * (w1 * s1 + wz * sz + w0 * s0) + (c4 * h4) * (1.0 + 4.0 * (wz * z3 - w1))
  {
    var k := c4 * h3;
    assert w1 * (s1 + 4.0 * c4 * -h3) == w1 * s1 - 4.0 * (w1 * k);
    assert wz * (sz + 4.0 * c4 * (z3 * h3)) == wz * sz + 4.0 * ((wz * z3) * k);
    assert c4 * h4 == dt * k;
    assert dt * (w1 * s1 - 4.0 * (w1 * k) + (wz * sz + 4.0 * ((wz * z3) * k)) + w0 * s0)
        == dt * (w1 * s1 + wz * sz + w0 * s0) + (dt * k) * (4.0 * (wz * z3 - w1));
  }

  lemma DefectVanishesAt(c4: real, dt: real, w: real, k: real, gap: real)
    requires k == dt * dt && gap == (c4 * Fourth(dt)) * (1.0 + 4.0 * w)
    ensures gap == 0.0 <==> c4 == 0.0 || dt == 0.0 || w == -0.25
  {
    assert Fourth(dt) == k * k;
    Sums.Square(dt, k);
    Sums.Square(k, k * k);
    hide Fourth;
    if c4 != 0.0 && dt != 0.0 && w != -0.25 {
      NonZero2(c4, Fourth(dt));
      NonZero2(c4 * Fourth(dt), 1.0 + 4.0 * w);
    }
  }

  lemma RadauOrder(p: Quartic, t: real, dt: real)
    ensures var c := RadauFor();
      (StepX(c, dt, p.At(t - dt), p.Slope(t - dt), p.Slope(MidTime(c, dt, t)), p.Slope(t)) == p.At(t))
      <==> p.c4 == 0.0 || dt == 0.0
  {
    RadauFourth();
    RadauQuadrature();
    hide RadauFor, FourthMoment, Quartic.At, Quartic.Slope, StepX, MidTime, Quadrature;
    OrderExactly(RadauFor(), p, t, dt);
  }

  lemma RadauFourth()
    ensures !FourthMoment(RadauFor())
  {
  }

  /** method_cubic has order four without damping, and order three otherwise. */
  lemma CubicOrder(rho: real, p: Quartic, t: real, dt: real)
    requires rho != 0.0 && rho != -1.0
    ensures var c := CubicFor(rho);
      (StepX(c, dt, p.At(t - dt), p.Slope(t - dt), p.Slope(MidTime(c, dt, t)), p.Slope(t)) == p.At(t))
      <==> p.c4 == 0.0 || dt == 0.0 || rho == 1.0
  {
    hide CubicFor, FourthMoment, Quartic.At, Quartic.Slope, StepX, MidTime, Quadrature;
    CubicQuadrature(rho);
    CubicFourth(rho, CubicFor(rho), 1.0 + rho, 6.0 * rho);
    OrderExactly(CubicFor(rho), p, t, dt);
  }

  lemma CubicFourth(rho: real, c: TwoStage, s: real, l: real)
    requires rho != 0.0 && rho != -1.0 && c == CubicFor(rho) && s == 1.0 + rho && l == 6.0 * rho
    ensures FourthMoment(c) <==> rho == 1.0
  {
    hide CubicFor, CubicOver, Cleared, Divisors, Cube;
    CubicBasis(rho, c, s, 1.0 + c.z, l);
    CubicWeights(rho, c, s, 1.0 + c.z, l);
    FourthWeights(rho, c.z, s, l, c.w1, c.wz, Cube(c.z));
  }

  lemma FourthWeights(rho: real, z: real, s: real, l: real, w1: real, wz: real, z3: real)
    requires rho != 0.0 && l == 6.0 * rho && s == 1.0 + rho && s != 0.0 && Cleared(z, s, -rho) && z3 == Cube(z)
    requires Cleared(w1, l, rho * (2.0 - rho)) && Cleared(wz, l, s * s)
    ensures wz * z3 - w1 == -0.25 <==> rho == 1.0
  {
    var g, d := wz * z3 - w1 + 0.25, 2.0 * s * l;
    assert (wz * l) * (z3 * s) == (s * s) * (z3 * s) == (z * s) * (z * s) * (z * s) == -(rho * rho * rho);
    assert g * d == 2.0 * ((wz * l) * (z3 * s)) - 2.0 * ((w1 * l) * s) + 0.5 * (s * l);
    assert g * d == rho * (rho - 1.0);
    NonZero2(2.0 * s, l);
    if g != 0.0 {
      NonZero2(g, d);
    } else if rho != 1.0 {
      NonZero2(rho, rho - 1.0);
    }
  }
}

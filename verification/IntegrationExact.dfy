// What the Newton matrices of utils/dae-intg.cc are for: on a residual that is affine in the state and its
// derivative, one correction makes the residual vanish, so that every step converges after at most one.
module IntegrationExact {
  import opened Sums
  import opened LinearAlgebra
  import opened DaeCoefficients
  import opened TwoStageCoefficients
  import opened Integration
  import opened TwoStageIntegration

  ghost predicate AffineRow(p: Problem, t: real, A: Mat, B: Mat, f: Vec, x: seq<real>, xp: seq<real>, i: int) {
    p.func(x, xp, t)(i) == Apply(p.size, A, AsVec(x))(i) + Apply(p.size, B, AsVec(xp))(i) + f(i)
  }

  /** The gradient is minus the derivative of the residual. */
  ghost predicate GradientEntry(p: Problem, t: real, A: Mat, B: Mat, x: seq<real>, xp: seq<real>, i: int, j: int) {
    p.gradX(x, xp, t)(i, j) == -A(i, j) && p.gradXP(x, xp, t)(i, j) == -B(i, j)
  }

  /** At time t the residual is A*x + B*xp + f. */
  ghost predicate AffineAt(p: Problem, t: real, A: Mat, B: Mat, f: Vec) {
    && (forall x: seq<real>, xp: seq<real>, i: int :: 0 <= i < p.size ==> AffineRow(p, t, A, B, f, x, xp, i))
    && (forall x: seq<real>, xp: seq<real>, i: int, j: int :: 0 <= i < p.size && 0 <= j < p.size ==>
          GradientEntry(p, t, A, B, x, xp, i, j))
  }

  ghost predicate Vanishes(n: nat, r: Vec) {
    forall i :: 0 <= i < n ==> r(i) == 0.0
  }

  /** The change of a residual row along a combination of two directions. */
  ghost predicate MovedBy(n: nat, x: Vec, a: real, u: Vec, b: real, v: Vec, y: Vec) {
    forall j :: 0 <= j < n ==> MovedByAt(x, a, u, b, v, y, j)
  }

  ghost predicate MovedByAt(x: Vec, a: real, u: Vec, b: real, v: Vec, y: Vec, j: int) {
    y(j) == x(j) + (a * u(j) + b * v(j))
  }

  ghost function Combination(a: real, u: Vec, b: real, v: Vec): Vec {
    j => a * u(j) + b * v(j)
  }

  lemma ApplyMoved(n: nat, A: Mat, i: int, x: Vec, a: real, u: Vec, b: real, v: Vec, y: Vec)
    requires MovedBy(n, x, a, u, b, v, y)
    ensures Apply(n, A, y)(i) == Apply(n, A, x)(i) + (a * Apply(n, A, u)(i) + b * Apply(n, A, v)(i))
  {
    hide Apply;
    var w := Combination(a, u, b, v);
    ApplyLinear(n, A, i, a, u, b, v, w);
    forall j | 0 <= j < n
      ensures y(j) == 1.0 * x(j) + 1.0 * w(j)
    {
      assert MovedByAt(x, a, u, b, v, y, j);
    }
    ApplyLinear(n, A, i, 1.0, x, 1.0, w, y);
  }

  /** Row i of the matrix C is -(a*A + b*B). */
  ghost predicate MinusRow(n: nat, i: int, a: real, A: Mat, b: real, B: Mat, C: Mat) {
    forall j :: 0 <= j < n ==> C(i, j) == (-a) * A(i, j) + (-b) * B(i, j)
  }

  /** The equation that one correction solves, row by row: directions u and v, with weights a, b for the state and
      k, l for its derivative, and the two blocks P and Q of the Newton matrix. */
  lemma RowVanishes(n: nat, A: Mat, B: Mat, P: Mat, Q: Mat, i: int, a: real, b: real, k: real, l: real,
                    x: Vec, y: Vec, xp: Vec, yp: Vec, u: Vec, v: Vec, f: real, r: real)
    requires MovedBy(n, x, a, u, b, v, y) && MovedBy(n, xp, k, u, l, v, yp)
    requires MinusRow(n, i, a, A, k, B, P) && MinusRow(n, i, b, A, l, B, Q)
    requires r == Apply(n, A, x)(i) + Apply(n, B, xp)(i) + f
    requires Apply(n, P, u)(i) + Apply(n, Q, v)(i) == r
    ensures Apply(n, A, y)(i) + Apply(n, B, yp)(i) + f == 0.0
  {
    hide Apply;
    ApplyMoved(n, A, i, x, a, u, b, v, y);
    ApplyMoved(n, B, i, xp, k, u, l, v, yp);
    ApplySum(n, i, -a, A, -k, B, P, u);
    ApplySum(n, i, -b, A, -l, B, Q, v);
  }

  // ----- method_multistep

  /** The linear solver, given this matrix and right-hand side, returns a solution. */
  ghost predicate SolverSolves(p: Problem, n: nat, M: Mat, r: Vec) {
    Solves(n, M, p.solve(n, M, r), r)
  }

  /** The matrix of the source at this iterate: JP + coef*J. */
  ghost predicate MultistepMatrix(p: Problem, coef: real, t: real, s: State, M: Mat) {
    forall i, j :: 0 <= i < p.size && 0 <= j < p.size ==>
      M(i, j) == p.gradXP(s.x, s.xp, t)(i, j) + coef * p.gradX(s.x, s.xp, t)(i, j)
  }

  /** The linear solver solves the system of that matrix and of the residual. */
  ghost predicate MultistepSolvable(p: Problem, coef: real, t: real, s: State) {
    forall M: Mat :: MultistepMatrix(p, coef, t, s, M) ==> SolverSolves(p, p.size, M, p.func(s.x, s.xp, t))
  }

  lemma MultistepSystemSolved(p: Problem, coef: real, t: real, s: State)
    requires MultistepSolvable(p, coef, t, s)
    ensures Solves(p.size, MultistepJacobian(p.gradX(s.x, s.xp, t), p.gradXP(s.x, s.xp, t), coef),
                   MultistepSolution(p, coef, t, s), p.func(s.x, s.xp, t))
  {
    var M := MultistepJacobian(p.gradX(s.x, s.xp, t), p.gradXP(s.x, s.xp, t), coef);
    assert MultistepMatrix(p, coef, t, s, M);
    hide MultistepMatrix, MultistepJacobian, Solves;
    assert SolverSolves(p, p.size, M, p.func(s.x, s.xp, t));
  }

  /** One correction makes an affine residual vanish. */
  lemma MultistepNewtonExact(p: Problem, c: Multistep, dt: real, t: real, s: State, A: Mat, B: Mat, f: Vec)
    requires AffineAt(p, t, A, B, f) && Sized(p.size, s) && MultistepSolvable(p, dt * c.b0, t, s)
    ensures var s' := MultistepCorrect(p, c, dt, t)(s); Vanishes(p.size, p.func(s'.x, s'.xp, t))
  {
    var n, k := p.size, Gain(c, dt);
    var d, s' := MultistepSolution(p, k, t, s), MultistepCorrect(p, c, dt, t)(s);
    assert s' == MultistepCorrection(p, k, s, d);
    MultistepSystemSolved(p, k, t, s);
    hide MultistepSolution, MultistepCorrect, MultistepCorrection, Gain, Apply, AffineAt, MultistepJacobian;
    forall i | 0 <= i < n
      ensures p.func(s'.x, s'.xp, t)(i) == 0.0
    {
      MultistepRowVanishes(p, t, s, A, B, f, k, d, i);
    }
  }

  lemma MultistepRowVanishes(p: Problem, t: real, s: State, A: Mat, B: Mat, f: Vec, k: real, d: Vec, i: int)
    requires 0 <= i < p.size && AffineAt(p, t, A, B, f) && Sized(p.size, s)
    requires Apply(p.size, MultistepJacobian(p.gradX(s.x, s.xp, t), p.gradXP(s.x, s.xp, t), k), d)(i)
             == p.func(s.x, s.xp, t)(i)
    ensures var s' := MultistepCorrection(p, k, s, d); p.func(s'.x, s'.xp, t)(i) == 0.0
  {
    var n, s' := p.size, MultistepCorrection(p, k, s, d);
    var J, Z := MultistepJacobian(p.gradX(s.x, s.xp, t), p.gradXP(s.x, s.xp, t), k), ScaledIdentity(0.0);
    assert AffineRow(p, t, A, B, f, s.x, s.xp, i) && AffineRow(p, t, A, B, f, s'.x, s'.xp, i);
    AffineRows(p, t, A, B, f, s.x, s.xp, i);
    AffineRows(p, t, A, B, f, s'.x, s'.xp, i);
    MultistepMoves(p, k, s, d);
    forall j | 0 <= j < n
      ensures J(i, j) == (-k) * A(i, j) + (-1.0) * B(i, j) && Z(i, j) == (-0.0) * A(i, j) + (-0.0) * B(i, j)
    {
      assert GradientEntry(p, t, A, B, s.x, s.xp, i, j);
    }
    ApplyZero(n, Z, d, i);
    hide AffineAt, AffineRow, Apply, MultistepJacobian, MultistepCorrection, MovedBy;
    RowVanishes(n, A, B, J, Z, i, k, 0.0, 1.0, 0.0, AsVec(s.x), AsVec(s'.x), AsVec(s.xp), AsVec(s'.xp), d, d,
      f(i), p.func(s.x, s.xp, t)(i));
  }

  lemma MultistepMoves(p: Problem, k: real, s: State, d: Vec)
    ensures var s' := MultistepCorrection(p, k, s, d);
      && MovedBy(p.size, AsVec(s.x), k, d, 0.0, d, AsVec(s'.x)) &&
         MovedBy(p.size, AsVec(s.xp), 1.0, d, 0.0, d, AsVec(s'.xp))
  {
  }

  lemma AffineRows(p: Problem, t: real, A: Mat, B: Mat, f: Vec, x: seq<real>, xp: seq<real>, i: int)
    requires AffineRow(p, t, A, B, f, x, xp, i)
    ensures p.func(x, xp, t)(i) == Apply(p.size, A, AsVec(x))(i) + Apply(p.size, B, AsVec(xp))(i) + f(i)
  {
  }

  // ----- method_cubic and method_radau_II

  /** The matrix of the source at this iterate, in its four blocks. */
  ghost predicate TwoStageMatrix(p: Problem, c: TwoStage, dt: real, t: real, tz: real, s: Stages, M: Mat) {
    InBlocks(p, c.j00 * dt, c.j0z * dt, c.jz0 * dt, c.jzz * dt, t, tz, s, M)
  }

  ghost predicate InBlocks(p: Problem, k00: real, k0z: real, kz0: real, kzz: real, t: real, tz: real, s: Stages,
                           M: Mat) {
    forall i, j :: 0 <= i < p.size && 0 <= j < p.size ==> BlockEntries(p, k00, k0z, kz0, kzz, t, tz, s, M, i, j)
  }

  ghost predicate BlockEntries(p: Problem, k00: real, k0z: real, kz0: real, kzz: real, t: real, tz: real, s: Stages,
                               M: Mat, i: int, j: int) {
    var J0, JP0 := p.gradX(s.full.x, s.full.xp, t)(i, j), p.gradXP(s.full.x, s.full.xp, t)(i, j);
    var Jz, JPz := p.gradX(s.mid.x, s.mid.xp, tz)(i, j), p.gradXP(s.mid.x, s.mid.xp, tz)(i, j);
    && M(i, j) == k00 * J0 + JP0 && M(i, p.size + j) == k0z * J0
    && M(p.size + i, j) == kz0 * Jz && M(p.size + i, p.size + j) == kzz * Jz + JPz
  }

  /** The linear solver solves the system of that matrix and of both residuals. */
  ghost predicate TwoStageSolvable(p: Problem, c: TwoStage, dt: real, t: real, tz: real, s: Stages) {
    forall M: Mat, r: Vec :: TwoStageMatrix(p, c, dt, t, tz, s, M) && BothResiduals(p, t, tz, s, r) ==>
      SolverSolves(p, 2 * p.size, M, r)
  }

  /** The system that the correction solves. */
  ghost predicate TwoStageSolved(p: Problem, c: TwoStage, dt: real, t: real, s: Stages) {
    Solves(2 * p.size, TwoStageJacobian(p, c, dt, t, s), TwoStageSolution(p, c, dt, t, s),
           TwoStageResidual(p, c, dt, t, s))
  }

  lemma TwoStageSystemSolved(p: Problem, c: TwoStage, dt: real, t: real, s: Stages)
    requires TwoStageSolvable(p, c, dt, t, MidTime(c, dt, t), s)
    ensures TwoStageSolved(p, c, dt, t, s)
  {
    var M, r := TwoStageJacobian(p, c, dt, t, s), TwoStageResidual(p, c, dt, t, s);
    TwoStageParts(p, c, dt, t, s);
    hide TwoStageMatrix, TwoStageJacobian, TwoStageResidual, BothResiduals, Solves, MidTime;
    assert SolverSolves(p, 2 * p.size, M, r);
  }

  lemma TwoStageParts(p: Problem, c: TwoStage, dt: real, t: real, s: Stages)
    ensures TwoStageMatrix(p, c, dt, t, MidTime(c, dt, t), s, TwoStageJacobian(p, c, dt, t, s))
    ensures BothResiduals(p, t, MidTime(c, dt, t), s, TwoStageResidual(p, c, dt, t, s))
  {
    hide MidTime;
    var M, r, tz := TwoStageJacobian(p, c, dt, t, s), TwoStageResidual(p, c, dt, t, s), MidTime(c, dt, t);
    var k00, k0z, kz0, kzz := J00(c, dt), J0z(c, dt), Jz0(c, dt), Jzz(c, dt);
    assert k00 == c.j00 * dt && k0z == c.j0z * dt && kz0 == c.jz0 * dt && kzz == c.jzz * dt;
    hide J00, J0z, Jz0, Jzz;
    assert InBlocks(p, k00, k0z, kz0, kzz, t, tz, s, M);
    assert forall i :: 0 <= i < p.size ==> BothResidualsAt(p, t, tz, s, r, i);
  }

  /** A row of a matrix in two blocks, applied to a stacked vector. */
  lemma SplitRow(n: nat, P: Mat, Q: Mat, i: int, C: Mat, r: int, d: Vec)
    requires forall j :: 0 <= j < n ==> C(r, j) == P(i, j)
    requires forall j :: n <= j < 2 * n ==> C(r, j) == Q(i, j - n)
    ensures Apply(2 * n, C, d)(r) == Apply(n, P, d)(i) + Apply(n, Q, Upper(n, d))(i)
  {
    SumSplit(0, n, 2 * n, RowTimes(C, r, d));
    SumEq(0, n, RowTimes(C, r, d), RowTimes(P, i, d));
    SumShift(0, n, n, RowTimes(C, r, d), RowTimes(Q, i, Upper(n, d)));
  }

  ghost function TimesGain(k: real, A: Mat): Mat {
    (i, j) => k * A(i, j)
  }

  ghost function GradientBlock(k: real, A: Mat, B: Mat): Mat {
    (i, j) => k * A(i, j) + B(i, j)
  }

  /** The rows of the Newton matrix that belong to the new time, and those of the intermediate time. */
  lemma BlockRows(n: nat, c: TwoStage, dt: real, J0: Mat, JP0: Mat, Jz: Mat, JPz: Mat, d: Vec, i: int)
    requires 0 <= i < n
    ensures var C := BlockJacobian(n, c, dt, J0, JP0, Jz, JPz);
      && Apply(2 * n, C, d)(i) == Apply(n, GradientBlock(J00(c, dt), J0, JP0), d)(i)
         + Apply(n, TimesGain(J0z(c, dt), J0), Upper(n, d))(i)
      && Apply(2 * n, C, d)(n + i) == Apply(n, TimesGain(Jz0(c, dt), Jz), d)(i)
         + Apply(n, GradientBlock(Jzz(c, dt), Jz, JPz), Upper(n, d))(i)
  {
    hide Apply, J00, J0z, Jz0, Jzz;
    var C := BlockJacobian(n, c, dt, J0, JP0, Jz, JPz);
    SplitRow(n, GradientBlock(J00(c, dt), J0, JP0), TimesGain(J0z(c, dt), J0), i, C, i, d);
    SplitRow(n, TimesGain(Jz0(c, dt), Jz), GradientBlock(Jzz(c, dt), Jz, JPz), i, C, n + i, d);
  }

  /** The corrections of the states, in terms of the coefficients of the Newton matrix. */
  lemma DeltasAreNewton(c: TwoStage, dt: real, d0: real, dz: real)
    requires NewtonAgrees(c)
    ensures FullDelta(c, dt, d0, dz) == J00(c, dt) * d0 + J0z(c, dt) * dz
    ensures MidDelta(c, dt, d0, dz) == Jz0(c, dt) * d0 + Jzz(c, dt) * dz
  {
  }

  lemma CorrectionMoves(n: nat, c: TwoStage, dt: real, s: Stages, d: Vec)
    requires NewtonAgrees(c)
    ensures var s', dz := TwoStageCorrection(n, c, dt, s, d), Upper(n, d);
      && MovedBy(n, AsVec(s.full.x), J00(c, dt), d, J0z(c, dt), dz, AsVec(s'.full.x))
      && MovedBy(n, AsVec(s.full.xp), 1.0, d, 0.0, dz, AsVec(s'.full.xp))
      && MovedBy(n, AsVec(s.mid.x), Jz0(c, dt), d, Jzz(c, dt), dz, AsVec(s'.mid.x))
      && MovedBy(n, AsVec(s.mid.xp), 0.0, d, 1.0, dz, AsVec(s'.mid.xp))
  {
    hide FullDelta, MidDelta, TwoStageCorrection, AsVec, Upper, NewtonAgrees, J00, J0z, Jz0, Jzz;
    var s', dz := TwoStageCorrection(n, c, dt, s, d), Upper(n, d);
    forall j | 0 <= j < n
      ensures MovedByAt(AsVec(s.full.x), J00(c, dt), d, J0z(c, dt), dz, AsVec(s'.full.x), j)
      ensures MovedByAt(AsVec(s.full.xp), 1.0, d, 0.0, dz, AsVec(s'.full.xp), j)
      ensures MovedByAt(AsVec(s.mid.x), Jz0(c, dt), d, Jzz(c, dt), dz, AsVec(s'.mid.x), j)
      ensures MovedByAt(AsVec(s.mid.xp), 0.0, d, 1.0, dz, AsVec(s'.mid.xp), j)
    {
      CorrectedValues(n, c, dt, s, d, j);
      DeltasAreNewton(c, dt, d(j), dz(j));
    }
  }

  /** A residual row of one stage after the correction: J and JP are the gradients there, and the row of the Newton
      matrix has the blocks P and Q. */
  lemma StageRowVanishes(p: Problem, t: real, A: Mat, B: Mat, f: Vec, P: Mat, Q: Mat, i: int,
                         a: real, b: real, k: real, l: real, s: State, s': State, u: Vec, v: Vec)
    requires 0 <= i < p.size && AffineAt(p, t, A, B, f)
    requires MovedBy(p.size, AsVec(s.x), a, u, b, v, AsVec(s'.x)) &&
             MovedBy(p.size, AsVec(s.xp), k, u, l, v, AsVec(s'.xp))
    requires MinusRow(p.size, i, a, A, k, B, P) && MinusRow(p.size, i, b, A, l, B, Q)
    requires Apply(p.size, P, u)(i) + Apply(p.size, Q, v)(i) == p.func(s.x, s.xp, t)(i)
    ensures p.func(s'.x, s'.xp, t)(i) == 0.0
  {
    hide Apply, AsVec, MovedBy, MinusRow;
    assert AffineRow(p, t, A, B, f, s.x, s.xp, i) && AffineRow(p, t, A, B, f, s'.x, s'.xp, i);
    RowVanishes(p.size, A, B, P, Q, i, a, b, k, l, AsVec(s.x), AsVec(s'.x), AsVec(s.xp), AsVec(s'.xp), u, v,
      f(i), p.func(s.x, s.xp, t)(i));
  }

  lemma GradientRows(p: Problem, t: real, A: Mat, B: Mat, f: Vec, s: State, i: int, g: real)
    requires 0 <= i < p.size && AffineAt(p, t, A, B, f)
    ensures MinusRow(p.size, i, g, A, 1.0, B, GradientBlock(g, p.gradX(s.x, s.xp, t), p.gradXP(s.x, s.xp, t)))
    ensures MinusRow(p.size, i, g, A, 0.0, B, TimesGain(g, p.gradX(s.x, s.xp, t)))
  {
    var J, JP := p.gradX(s.x, s.xp, t), p.gradXP(s.x, s.xp, t);
    forall j | 0 <= j < p.size
      ensures GradientBlock(g, J, JP)(i, j) == (-g) * A(i, j) + (-1.0) * B(i, j)
      ensures TimesGain(g, J)(i, j) == (-g) * A(i, j) + (-0.0) * B(i, j)
    {
      assert GradientEntry(p, t, A, B, s.x, s.xp, i, j);
    }
  }

  /** One correction makes the affine residuals of both stages vanish. */
  lemma TwoStageNewtonExact(p: Problem, c: TwoStage, dt: real, t: real, s: Stages,
                            A: Mat, B: Mat, f: Vec, Az: Mat, Bz: Mat, fz: Vec)
    requires NewtonAgrees(c) && TwoStageSolvable(p, c, dt, t, MidTime(c, dt, t), s)
    requires AffineAt(p, t, A, B, f) && AffineAt(p, MidTime(c, dt, t), Az, Bz, fz)
    ensures Vanishes(2 * p.size, TwoStageResidual(p, c, dt, t, TwoStageCorrect(p, c, dt, t)(s)))
  {
    var n, tz, d, s' := p.size, MidTime(c, dt, t), TwoStageSolution(p, c, dt, t, s), TwoStageCorrect(p, c, dt, t)(s);
    assert s' == TwoStageCorrection(n, c, dt, s, d);
    TwoStageSystemSolved(p, c, dt, t, s);
    hide TwoStageSolution, TwoStageSolvable, TwoStageCorrect, TwoStageCorrection, AffineAt, NewtonAgrees,
      TwoStageSolved, MidTime;
    forall i | 0 <= i < n
      ensures p.func(s'.full.x, s'.full.xp, t)(i) == 0.0 && p.func(s'.mid.x, s'.mid.xp, tz)(i) == 0.0
    {
      FullRowVanishes(p, c, dt, t, s, s', A, B, f, d, i);
      MidRowVanishes(p, c, dt, t, s, s', Az, Bz, fz, d, i);
    }
  }

  lemma FullRowVanishes(p: Problem, c: TwoStage, dt: real, t: real, s: Stages, s': Stages, A: Mat, B: Mat, f: Vec,
                        d: Vec, i: int)
    requires 0 <= i < p.size && NewtonAgrees(c) && TwoStageSolved(p, c, dt, t, s) && AffineAt(p, t, A, B, f)
    requires d == TwoStageSolution(p, c, dt, t, s) && s' == TwoStageCorrection(p.size, c, dt, s, d)
    ensures p.func(s'.full.x, s'.full.xp, t)(i) == 0.0
  {
    var n, tz := p.size, MidTime(c, dt, t);
    var J0, JP0 := p.gradX(s.full.x, s.full.xp, t), p.gradXP(s.full.x, s.full.xp, t);
    assert Apply(2 * n, TwoStageJacobian(p, c, dt, t, s), d)(i) == p.func(s.full.x, s.full.xp, t)(i);
    hide TwoStageSolution, TwoStageCorrection, Apply, AffineAt, MovedBy, MinusRow, NewtonAgrees, AsVec, TimesGain,
      GradientBlock, J00, J0z, Jz0, Jzz, Upper, BlockJacobian, MidTime, TwoStageSolved, TwoStageResidual;
    BlockRows(n, c, dt, J0, JP0, p.gradX(s.mid.x, s.mid.xp, tz), p.gradXP(s.mid.x, s.mid.xp, tz), d, i);
    CorrectionMoves(n, c, dt, s, d);
    GradientRows(p, t, A, B, f, s.full, i, J00(c, dt));
    GradientRows(p, t, A, B, f, s.full, i, J0z(c, dt));
    StageRowVanishes(p, t, A, B, f, GradientBlock(J00(c, dt), J0, JP0), TimesGain(J0z(c, dt), J0), i,
      J00(c, dt), J0z(c, dt), 1.0, 0.0, s.full, s'.full, d, Upper(n, d));
  }

  lemma MidRowVanishes(p: Problem, c: TwoStage, dt: real, t: real, s: Stages, s': Stages, A: Mat, B: Mat, f: Vec,
                       d: Vec, i: int)
    requires 0 <= i < p.size && NewtonAgrees(c) && TwoStageSolved(p, c, dt, t, s) &&
             AffineAt(p, MidTime(c, dt, t), A, B, f)
    requires d == TwoStageSolution(p, c, dt, t, s) && s' == TwoStageCorrection(p.size, c, dt, s, d)
    ensures p.func(s'.mid.x, s'.mid.xp, MidTime(c, dt, t))(i) == 0.0
  {
    var n, tz := p.size, MidTime(c, dt, t);
    var Jz, JPz := p.gradX(s.mid.x, s.mid.xp, tz), p.gradXP(s.mid.x, s.mid.xp, tz);
    assert Apply(2 * n, TwoStageJacobian(p, c, dt, t, s), d)(n + i) == p.func(s.mid.x, s.mid.xp, tz)(i);
    hide TwoStageSolution, TwoStageCorrection, Apply, AffineAt, MovedBy, MinusRow, NewtonAgrees, AsVec, TimesGain,
      GradientBlock, J00, J0z, Jz0, Jzz, Upper, BlockJacobian, MidTime, TwoStageSolved, TwoStageResidual;
    BlockRows(n, c, dt, p.gradX(s.full.x, s.full.xp, t), p.gradXP(s.full.x, s.full.xp, t), Jz, JPz, d, i);
    CorrectionMoves(n, c, dt, s, d);
    GradientRows(p, tz, A, B, f, s.mid, i, Jz0(c, dt));
    GradientRows(p, tz, A, B, f, s.mid, i, Jzz(c, dt));
    StageRowVanishes(p, tz, A, B, f, TimesGain(Jz0(c, dt), Jz), GradientBlock(Jzz(c, dt), Jz, JPz), i,
      Jz0(c, dt), Jzz(c, dt), 0.0, 1.0, s.mid, s'.mid, d, Upper(n, d));
  }

  // ----- convergence

  ghost predicate NormOfZero(p: Problem) {
    forall n: nat, r: Vec :: Vanishes(n, r) ==> p.norm(n, r) == 0.0
  }

  /** Newton stops at the prediction or at its first correction, when that one has no residual. */
  lemma AtMostOnce<S>(test: S -> real, correct: S -> S, tol: real, left: nat, s: S)
    requires tol > 0.0 && left >= 1 && test(correct(s)) == 0.0
    ensures Newton(test, correct, tol, left, s)
         == if test(s) < tol then Converged(s, test(s)) else Converged(correct(s), 0.0)
  {
  }

  /** With an affine residual and one admitted iteration the multistep method never fails. */
  lemma MultistepAffineConverges(p: Problem, c: Multistep, dt: real, tol: real, maxiter: int, t: real, m1: State,
                                 m2: State, A: Mat, B: Mat, f: Vec)
    requires tol > 0.0 && maxiter >= 1 && NormOfZero(p) && AffineAt(p, t, A, B, f)
    requires MultistepSolvable(p, dt * c.b0, t, MultistepPredict(p.size, c, dt, m1, m2))
    ensures var s := MultistepPredict(p.size, c, dt, m1, m2);
      MultistepNewton(p, c, dt, tol, maxiter, t, m1, m2) ==
        if p.norm(p.size, p.func(s.x, s.xp, t)) < tol then Converged(s, p.norm(p.size, p.func(s.x, s.xp, t)))
        else Converged(MultistepCorrect(p, c, dt, t)(s), 0.0)
  {
    var s := MultistepPredict(p.size, c, dt, m1, m2);
    assert Sized(p.size, s);
    hide MultistepPredict, MultistepCorrect, AffineAt, MultistepSolvable, Vanishes;
    MultistepNewtonExact(p, c, dt, t, s, A, B, f);
    AtMostOnce(Tested(p, t), MultistepCorrect(p, c, dt, t), tol, Allowed(maxiter), s);
  }

  /** Nor do the two-stage methods. */
  lemma TwoStageAffineConverges(
      p: Problem, c: TwoStage, linear: bool, dt: real, tol: real, maxiter: int, t: real, m1: State, m2: State,
      A: Mat, B: Mat, f: Vec, Az: Mat, Bz: Mat, fz: Vec)
    requires dt != 0.0 && tol > 0.0 && maxiter >= 1 && NormOfZero(p) && NewtonAgrees(c)
    requires AffineAt(p, t, A, B, f) && AffineAt(p, MidTime(c, dt, t), Az, Bz, fz)
    requires TwoStageSolvable(p, c, dt, t, MidTime(c, dt, t), TwoStagePredict(p.size, c, linear, dt, m1, m2))
    ensures var s := TwoStagePredict(p.size, c, linear, dt, m1, m2);
      TwoStageNewton(p, c, linear, dt, tol, maxiter, t, m1, m2) ==
        if TwoStageTested(p, c, dt, t)(s) < tol then Converged(s, TwoStageTested(p, c, dt, t)(s))
        else Converged(TwoStageCorrect(p, c, dt, t)(s), 0.0)
  {
    var s := TwoStagePredict(p.size, c, linear, dt, m1, m2);
    hide TwoStagePredict, TwoStageCorrect, AffineAt, TwoStageSolvable, Vanishes, MidTime, NewtonAgrees,
      TwoStageResidual;
    TwoStageNewtonExact(p, c, dt, t, s, A, B, f, Az, Bz, fz);
    AtMostOnce(TwoStageTested(p, c, dt, t), TwoStageCorrect(p, c, dt, t), tol, Allowed(maxiter), s);
  }
}

// The ARX identification model of utils/GPC.c: its regressor windows and its recursive
// least-squares update, kept in working arrays that every call overwrites.
module Arx {
  import opened LinearAlgebra
  import opened Sums
  import opened MatrixLibrary
  import opened RlsTheory
  import opened LeastSquares
  import opened Windows
  import opened Identification
  import PredictionTheory

  ghost const ZERO: Mat := (i, j) => 0.0

  /** The number of entries of a regressor. */
  function Dimension(p: nat, na: nat, m: nat, nb: nat): (n: nat)
    ensures n == p * na + m * nb
  {
    p * na + m * nb
  }

  class ArxModel {
    const na: nat
    const nb: nat
    const m: nat
    const p: nat
    const mu: real
    const delta: real
    const simplyProper: nat
    const phi: array<real>
    const theta: array2<real>
    const P: array2<real>
    const yp: array<real>
    const eps: array<real>
    const eps2: array<real>
    const Pphi: array<real>
    const K: array<real>
    const DeltaTheta: array2<real>
    const DeltaP: array2<real>

    // the samples processed by Rls, those shifted into the regressor, and how many of these there were at each step
    ghost var data: seq<Sample>
    ghost var times: seq<nat>
    ghost var outputs: seq<seq<real>>
    ghost var inputs: seq<seq<real>>

    ghost function Dim(): nat {
      phi.Length
    }

    ghost predicate Shapes() {
      && na >= 1 && nb + simplyProper >= 1
      && phi.Length == Pphi.Length == K.Length == Dimension(p, na, m, nb + simplyProper)
      && yp.Length == eps.Length == eps2.Length == p
      && theta.Length0 == DeltaTheta.Length0 == p && theta.Length1 == DeltaTheta.Length1 == Dim()
      && P.Length0 == P.Length1 == DeltaP.Length0 == DeltaP.Length1 == Dim()
      && phi != yp && phi != eps && phi != eps2 && phi != Pphi && phi != K
      && yp != eps && yp != eps2 && yp != Pphi && yp != K
      && eps != eps2 && eps != Pphi && eps != K
      && eps2 != Pphi && eps2 != K && Pphi != K
      && theta != P && theta != DeltaTheta && theta != DeltaP
      && P != DeltaTheta && P != DeltaP && DeltaTheta != DeltaP
      && mu > 0.0 && delta > 0.0
    }

    /** What every run keeps: P is the inverse of the information matrix of all data processed, without
        forgetting the parameters satisfy the normal equations, the regressor holds the last samples, and those
        processed before held the last samples of their own time. */
    ghost predicate Valid()
      reads this, phi, theta, P
    {
      && Shapes()
      && Consistent(Dim(), MatOf(P), Information(mu, delta, data))
      && (mu == 1.0 ==> NormalEquations(Dim(), p, MatOf(theta), ZERO, mu, delta, data))
      && Holds(phi[..], 0, p, na, outputs)
      && Holds(phi[..], p * na, m, nb + simplyProper, inputs)
      && Recorded(p, na, m, nb + simplyProper, data, times, outputs, inputs)
    }

    constructor (na: nat, nb: nat, m: nat, p: nat, mu: real, delta: real, simplyProper: nat)
      requires na >= 1 && nb + simplyProper >= 1
      requires delta > 0.0 && 0.0 < mu <= 1.0
      ensures Valid()
      ensures data == [] && times == [] && outputs == [] && inputs == []
      ensures this.na == na && this.nb == nb && this.m == m && this.p == p
      ensures this.mu == mu && this.delta == delta && this.simplyProper == simplyProper
    {
      var dimension := Dimension(p, na, m, nb + simplyProper);
      this.na, this.nb, this.m, this.p := na, nb, m, p;
      this.mu, this.delta, this.simplyProper := mu, delta, simplyProper;
      P := new real[dimension, dimension];
      theta := new real[p, dimension];
      phi := new real[dimension];
      yp := new real[p];
      eps := new real[p];
      eps2 := new real[p];
      Pphi := new real[dimension];
      K := new real[dimension];
      DeltaTheta := new real[p, dimension];
      DeltaP := new real[dimension, dimension];
      data, times, outputs, inputs := [], [], [], [];
      new;
      SetCovariance();
    }

    /** The rest of ARX_Initialize: matrix_init and vector_init zero what they allocate, and P becomes delta*I. */
    method SetCovariance()
      requires Shapes() && data == [] && times == [] && outputs == [] && inputs == []
      modifies P, theta, phi, yp, eps, eps2, Pphi, K, DeltaTheta, DeltaP
      ensures Valid()
    {
      hide Holds, Consistent, NormalEquations, Information, Recorded;
      VectorZero(yp);
      VectorZero(eps);
      VectorZero(eps2);
      VectorZero(Pphi);
      VectorZero(K);
      MatrixEye(DeltaTheta, 0.0);
      MatrixEye(DeltaP, 0.0);
      VectorZero(phi);
      MatrixEye(theta, 0.0);
      MatrixEye(P, delta);
      InitialState(Dim(), p, mu, delta, MatOf(P), MatOf(theta));
      InitialWindows(phi[..], p, na, m, nb + simplyProper);
      NothingRecorded(p, na, m, nb + simplyProper);
    }

    /** ARX_UpdatePhi: the newest output and input enter the regressor. */
    method Update(y: array<real>, u: array<real>)
      requires Valid() && y.Length == p && u.Length == m && y != phi && u != phi
      requires y != theta as object && u != theta as object && y != P as object && u != P as object
      modifies this, phi
      ensures Valid()
      ensures data == old(data) && times == old(times)
      ensures outputs == old(outputs) + [y[..]] && inputs == old(inputs) + [u[..]]
    {
      UpdatePhi(phi, p, na, m, nb + simplyProper, y, u, outputs, inputs);
      MoreRecorded(p, na, m, nb + simplyProper, data, times, outputs, inputs, y[..], u[..]);
      outputs, inputs := outputs + [y[..]], inputs + [u[..]];
    }

    /** ARX_RLS: one recursive least-squares step on the current regressor. */
    method Rls(y: array<real>)
      requires Valid() && y.Length == p
      requires y != yp && y != eps && y != eps2 && y != Pphi && y != K
      modifies this, yp, eps, eps2, Pphi, K, theta, P, DeltaTheta, DeltaP
      ensures Valid()
      ensures data == old(data) + [Sample(AsVec(phi[..]), AsVec(y[..]))]
      ensures times == old(times) + [|outputs|] && outputs == old(outputs) && inputs == old(inputs)
      ensures StepTaken(Dim(), p, mu, Sample(AsVec(phi[..]), AsVec(y[..])),
                        old(MatOf(theta)), old(MatOf(P)), MatOf(theta), MatOf(P))
    {
      hide RecordedAt, NormalEquations, Consistent, Holds, StepTaken;
      ghost var s := Sample(AsVec(phi[..]), AsVec(y[..]));
      ghost var theta0, P0 := MatOf(theta), MatOf(P);
      WindowIsRegressor(phi[..], p, na, m, nb + simplyProper, outputs, inputs);
      StepKeepsConsistent(Dim(), mu, s.phi, P0, Information(mu, delta, data), P0);
      Step(y, s);
      RunStep(Dim(), p, mu, delta, ZERO, data, s, theta0, P0, MatOf(theta), MatOf(P));
      SampleRecorded(p, na, m, nb + simplyProper, data, times, outputs, inputs, s);
      data, times := data + [s], times + [|outputs|];
    }

    /** The step itself, in the working arrays. */
    method Step(y: array<real>, ghost s: Sample)
      requires Shapes() && y.Length == p && s == Sample(AsVec(phi[..]), AsVec(y[..]))
      requires y != yp && y != eps && y != eps2 && y != Pphi && y != K
      requires 1.0 + Power(Dim(), MatOf(P), s.phi) > 0.0 && Power(Dim(), MatOf(P), s.phi) + mu > 0.0
      modifies yp, eps, eps2, Pphi, K, theta, P, DeltaTheta, DeltaP
      ensures StepTaken(Dim(), p, mu, s, old(MatOf(theta)), old(MatOf(P)), MatOf(theta), MatOf(P))
    {
      ghost var P0 := MatOf(P);
      var r := Predict(y, s);
      UpdateParameters(r, s, P0);
      UpdateCovariance(r, s);
    }

    /** The model that theta stands for. */
    ghost function Identified(): PredictionTheory.Model
      reads theta
    {
      PredictionTheory.Model(na, nb, 0, p, m, simplyProper, MatOf(theta))
    }

    /** Without forgetting, no other model of the same size predicts the recorded signals better, one step ahead. */
    lemma BestPredictor(M: PredictionTheory.Model, i: int)
      requires Valid() && mu == 1.0 && simplyProper <= 1 && 0 <= i < p
      requires M == Identified().(theta := M.theta)
      ensures OneStepCost(Identified(), Dim(), delta, Row(ZERO, i), data, times, outputs, inputs, i)
           <= OneStepCost(M, Dim(), delta, Row(ZERO, i), data, times, outputs, inputs, i)
      ensures (exists j :: 0 <= j < Dim() && M.theta(i, j) != theta[i, j]) ==>
        OneStepCost(Identified(), Dim(), delta, Row(ZERO, i), data, times, outputs, inputs, i)
        < OneStepCost(M, Dim(), delta, Row(ZERO, i), data, times, outputs, inputs, i)
    {
      hide NormalEquations, Information, Holds, Recorded, PositiveDefinite, OneStepCost;
      assert PositiveDefinite(Dim(), Information(mu, delta, data));
      BestOneStep(Identified(), M, Dim(), delta, ZERO, data, times, outputs, inputs, i);
      assert forall j :: 0 <= j < Dim() ==> Identified().theta(i, j) == theta[i, j];
    }

    method Predict(y: array<real>, ghost s: Sample) returns (r: real)
      requires Shapes() && y.Length == p && y != yp && y != eps && y != Pphi
      requires s == Sample(AsVec(phi[..]), AsVec(y[..]))
      modifies yp, eps, Pphi
      ensures r == Power(Dim(), MatOf(P), s.phi)
      ensures forall j :: 0 <= j < Dim() ==> Pphi[j] == Gain(Dim(), MatOf(P), s.phi)(j)
      ensures forall i :: 0 <= i < p ==> eps[i] == Innovation(Dim(), MatOf(theta), s.phi, s.y, i)
    {
      MatrixVectorProd(theta, phi, yp);
      VectorSum(y, yp, eps, -1.0);
      MatrixVectorProd(P, phi, Pphi);
      r := ScalarProd(phi, Pphi);
      DotEq(Dim(), s.phi, AsVec(Pphi[..]), s.phi, Gain(Dim(), MatOf(P), s.phi));
    }

    /** The limited error is the error itself, because its slope a is fixed at zero. */
    method LimitErrors()
      requires Shapes()
      modifies eps2
      ensures forall i :: 0 <= i < p ==> eps2[i] == eps[i]
    {
      var a := 0.0;
      for i := 0 to p
        invariant forall q :: 0 <= q < i ==> eps2[q] == eps[q]
      {
        if eps[i] >= 0.0 {
          eps2[i] := eps[i] / (1.0 + a * eps[i]);
        } else {
          eps2[i] := eps[i] / (1.0 - a * eps[i]);
        }
      }
    }

    method UpdateParameters(r: real, ghost s: Sample, ghost P0: Mat)
      requires Shapes() && 1.0 + r > 0.0
      requires r == Power(Dim(), P0, s.phi)
      requires forall j :: 0 <= j < Dim() ==> Pphi[j] == Gain(Dim(), P0, s.phi)(j)
      requires forall i :: 0 <= i < p ==> eps[i] == Innovation(Dim(), MatOf(theta), s.phi, s.y, i)
      modifies K, eps2, DeltaTheta, theta
      ensures ParameterStep(Dim(), p, s.phi, s.y, P0, old(MatOf(theta)), MatOf(theta))
    {
      ghost var theta0, g := MatOf(theta), AsVec(Pphi[..]);
      VectorCopy(K, Pphi, 1.0 / (1.0 + r));
      ghost var gain := AsVec(K[..]);
      LimitErrors();
      ghost var e := AsVec(eps2[..]);
      OuterProd(eps2, K, DeltaTheta, 1.0);
      ghost var D1 := MatOf(DeltaTheta);
      MatrixSum(theta, DeltaTheta, theta, 1.0);
      ParametersFromParts(Dim(), p, s, P0, theta0, e, gain, D1, MatOf(theta));
    }

    method UpdateCovariance(r: real, ghost s: Sample)
      requires Shapes() && r + mu > 0.0
      requires r == Power(Dim(), MatOf(P), s.phi)
      requires forall j :: 0 <= j < Dim() ==> Pphi[j] == Gain(Dim(), MatOf(P), s.phi)(j)
      modifies DeltaP, P
      ensures CovarianceStep(Dim(), mu, s.phi, old(MatOf(P)), MatOf(P))
    {
      ghost var P0, g := MatOf(P), AsVec(Pphi[..]);
      var k, c := 1.0 / (r + mu), 1.0 / mu;
      OuterProd(Pphi, Pphi, DeltaP, k);
      ghost var D1 := MatOf(DeltaP);
      MatrixSum(P, DeltaP, P, -1.0);
      ghost var P1 := MatOf(P);
      MatrixScale(P, c);
      CovarianceFromParts(Dim(), mu, c, k, s.phi, g, P0, D1, P1, MatOf(P));
    }
  }

  lemma CovarianceFromParts(n: int, mu: real, c: real, k: real, phi: Vec, g: Vec, P0: Mat, D1: Mat, P1: Mat, P2: Mat)
    requires mu != 0.0 && c == 1.0 / mu && Power(n, P0, phi) + mu != 0.0 && k == 1.0 / (Power(n, P0, phi) + mu)
    requires forall j :: 0 <= j < n ==> g(j) == Gain(n, P0, phi)(j)
    requires IsOuter(n, n, k, g, g, D1) && IsSum(n, n, P0, -1.0, D1, P1) && IsScaled(n, n, c, P1, P2)
    ensures CovarianceStep(n, mu, phi, P0, P2)
  {
    hide Power, Gain;
    forall i, j | 0 <= i < n && 0 <= j < n
      ensures CovarianceAt(n, mu, phi, P0, P2, i, j)
    {
      assert OuterAt(k, g, g, D1, i, j) && SumAt(P0, -1.0, D1, P1, i, j) && ScaledAt(c, P1, P2, i, j);
      DowndateEntry(P0(i, j), g(i), g(j), Power(n, P0, phi) + mu, mu, c, k, D1(i, j), P1(i, j), P2(i, j));
    }
  }

  lemma ParametersFromParts(n: int, p: int, s: Sample, P: Mat, theta: Mat, e: Vec, gain: Vec, D1: Mat, theta': Mat)
    requires 1.0 + Power(n, P, s.phi) != 0.0
    requires forall i :: 0 <= i < p ==> e(i) == Innovation(n, theta, s.phi, s.y, i)
    requires forall j :: 0 <= j < n ==> gain(j) == 1.0 / (1.0 + Power(n, P, s.phi)) * Gain(n, P, s.phi)(j)
    requires IsOuter(p, n, 1.0, e, gain, D1) && IsSum(p, n, theta, 1.0, D1, theta')
    ensures ParameterStep(n, p, s.phi, s.y, P, theta, theta')
  {
    forall i, j | 0 <= i < p && 0 <= j < n
      ensures ParameterAt(n, s.phi, s.y, P, theta, theta', i, j)
    {
      assert OuterAt(1.0, e, gain, D1, i, j) && SumAt(theta, 1.0, D1, theta', i, j);
      ParameterEntry(Innovation(n, theta, s.phi, s.y, i), Gain(n, P, s.phi)(j), 1.0 + Power(n, P, s.phi),
        gain(j), e(i), D1(i, j));
    }
  }

  lemma ParameterEntry(e: real, g: real, d: real, k: real, e2: real, product: real)
    requires d != 0.0 && k == 1.0 / d * g && e2 == e && product == 1.0 * e2 * k
    ensures product == e * (g / d)
  {
  }

  lemma DowndateEntry(x: real, gi: real, gj: real, d: real, mu: real, c: real, k: real,
                       loss: real, rest: real, result: real)
    requires d != 0.0 && mu != 0.0 && c == 1.0 / mu && k == 1.0 / d
    requires loss == k * gi * gj && rest == x + -1.0 * loss && result == c * rest
    ensures result == (x - gi * gj / d) / mu
  {
  }

  lemma ConsistentTransfers(n: int, P: Mat, P': Mat, Q: Mat)
    requires Consistent(n, P, Q)
    requires forall i, j :: 0 <= i < n && 0 <= j < n ==> P(i, j) == P'(i, j)
    ensures Consistent(n, P', Q)
  {
    forall x: Vec | NonZero(n, x)
      ensures Quad(n, P', x) > 0.0
    {
      QuadEq(n, P, P', x);
    }
    forall x: Vec, i | 0 <= i < n
      ensures Apply(n, P', Apply(n, Q, x))(i) == x(i)
    {
      assert Apply(n, P, Apply(n, Q, x))(i) == x(i);
      ApplyEq(n, P, P', i, Apply(n, Q, x), Apply(n, Q, x));
    }
    forall x: Vec, i | 0 <= i < n
      ensures Apply(n, Q, Apply(n, P', x))(i) == x(i)
    {
      assert Apply(n, Q, Apply(n, P, x))(i) == x(i);
      forall k | 0 <= k < n
        ensures Apply(n, P, x)(k) == Apply(n, P', x)(k)
      {
        ApplyEq(n, P, P', k, x, x);
      }
      ApplyEq(n, Q, Q, i, Apply(n, P, x), Apply(n, P', x));
    }
  }

  lemma NormalTransfers(n: int, p: int, theta: Mat, theta': Mat, theta0: Mat, mu: real, delta: real, data: seq<Sample>)
    requires delta != 0.0
    requires NormalEquations(n, p, theta, theta0, mu, delta, data)
    requires forall i, j :: 0 <= i < p && 0 <= j < n ==> theta(i, j) == theta'(i, j)
    ensures NormalEquations(n, p, theta', theta0, mu, delta, data)
  {
    var Q := Information(mu, delta, data);
    forall i | 0 <= i < p
      ensures Solves(n, Q, Row(theta', i), Moment(theta0, delta, data, i))
    {
      SolutionTransfers(n, Q, Q, Row(theta, i), Row(theta', i), Moment(theta0, delta, data, i));
    }
  }

  lemma InitialState(n: int, p: int, mu: real, delta: real, P: Mat, theta: Mat)
    requires delta > 0.0
    requires forall i, j :: 0 <= i < n && 0 <= j < n ==> P(i, j) == if i == j then delta else 0.0
    requires forall i, j :: 0 <= i < p && 0 <= j < n ==> theta(i, j) == 0.0
    ensures Consistent(n, P, Information(mu, delta, []))
    ensures NormalEquations(n, p, theta, ZERO, mu, delta, [])
  {
    InitialConsistent(n, mu, delta);
    ConsistentTransfers(n, ScaledIdentity(delta), P, Information(mu, delta, []));
    InitialNormal(n, p, ZERO, mu, delta);
    NormalTransfers(n, p, ZERO, theta, ZERO, mu, delta, []);
  }

  lemma InitialWindows(v: seq<real>, p: nat, na: nat, m: nat, nb: nat)
    requires |v| == p * na + m * nb
    requires forall q :: 0 <= q < |v| ==> v[q] == 0.0
    ensures Holds(v, 0, p, na, []) && Holds(v, p * na, m, nb, [])
  {
    assert m * nb >= 0 && p * na >= 0;
    EmptyWindow(v, 0, p, na);
    EmptyWindow(v, p * na, m, nb);
  }
}

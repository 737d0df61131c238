/**
 * The closed-form helpers of the geodesic problem solvers: the quadrant corrections applied
 * after each `atan`, the mean-azimuth selection of the Gauss mid-latitude formulas, the
 * Gauss-lemma series terms and the Bessel-formula coefficients. A NaN result is `None`.
 */
module Geodesic {
  import opened Wrappers
  import opened Reals
  import opened Angles

  const HALF_PI: real := PI / 2.0

  /** Whether an angle lies in the closed interval [lo, hi]. */
  predicate Within(a: real, lo: real, hi: real)
  {
    lo <= a <= hi
  }

  /** Whether b differs from a by one of the given number of half turns: 0, 1 or 2 (or -1 when allowed). */
  predicate HalfTurnsFrom(b: real, a: real, allowNegative: bool)
  {
    b == a || b == a + PI || b == a + TWO_PI || (allowNegative && b == a - PI)
  }

  // ---------------------------------------------------------------------------
  // Quadrant corrections.

  /**
   * adjustLambda: the longitude difference on the auxiliary sphere, put in the half plane of
   * sin A1 (east or west) and the quadrant given by the sign of tan lambda; NaN when either sign is zero.
   */
  function AdjustLambda(lam: real, sinA1: real, tanLambda: real): (r: Option<real>)
    ensures r.None? <==> sinA1 == 0.0 || tanLambda == 0.0
  {
    var a := Abs(lam);
    if sinA1 > 0.0 && tanLambda > 0.0 then Some(a)
    else if sinA1 > 0.0 && tanLambda < 0.0 then Some(PI - a)
    else if sinA1 < 0.0 && tanLambda < 0.0 then Some(-a)
    else if sinA1 < 0.0 && tanLambda > 0.0 then Some(a - PI)
    else None
  }

  /**
   * For an atan result (|lambda| at most a quarter turn), the corrected lambda is east of the
   * first point (in [0, pi]) exactly when sin A1 is positive, lies within a quarter turn of 0
   * exactly when tan lambda is positive, and, when lambda carries the sign of tan lambda,
   * differs from it by a whole number of half turns, so its tangent is unchanged.
   */
  lemma AdjustLambdaQuadrant(lam: real, sinA1: real, tanLambda: real)
    requires Abs(lam) <= HALF_PI && sinA1 != 0.0 && tanLambda != 0.0
    ensures AdjustLambda(lam, sinA1, tanLambda).Some?
    ensures var r := AdjustLambda(lam, sinA1, tanLambda).value;
      Within(r, -PI, PI)
      && (sinA1 > 0.0 ==> Within(r, 0.0, PI)) && (sinA1 < 0.0 ==> Within(r, -PI, 0.0))
      && (tanLambda > 0.0 ==> Within(r, -PI, -HALF_PI) || Within(r, 0.0, HALF_PI))
      && (tanLambda < 0.0 ==> Within(r, HALF_PI, PI) || Within(r, -HALF_PI, 0.0))
      && ((lam >= 0.0 <==> tanLambda > 0.0) ==> HalfTurnsFrom(r, lam, true))
  {
  }

  /**
   * adjustA2: the azimuth at the second point, in [0, 2 pi), from the sign of sin A1 (a westward
   * geodesic arrives heading east of north) and of tan A2; NaN when either sign is zero.
   */
  function AdjustA2(a2: real, sinA1: real, tanA2: real): (r: Option<real>)
    ensures r.None? <==> sinA1 == 0.0 || tanA2 == 0.0
  {
    var a := Abs(a2);
    if sinA1 < 0.0 && tanA2 > 0.0 then Some(a)
    else if sinA1 < 0.0 && tanA2 < 0.0 then Some(PI - a)
    else if sinA1 > 0.0 && tanA2 > 0.0 then Some(PI + a)
    else if sinA1 > 0.0 && tanA2 < 0.0 then Some(TWO_PI - a)
    else None
  }

  /**
   * For an atan result, A2 lands in the quadrant the two signs name, within [0, 2 pi], and,
   * when A2 carries the sign of tan A2, differs from it by a whole number of half turns.
   */
  lemma AdjustA2Quadrant(a2: real, sinA1: real, tanA2: real)
    requires Abs(a2) <= HALF_PI && sinA1 != 0.0 && tanA2 != 0.0
    ensures AdjustA2(a2, sinA1, tanA2).Some?
    ensures var r := AdjustA2(a2, sinA1, tanA2).value;
      Within(r, 0.0, TWO_PI)
      && (sinA1 < 0.0 ==> Within(r, 0.0, PI)) && (sinA1 > 0.0 ==> Within(r, PI, TWO_PI))
      && (tanA2 > 0.0 ==> Within(r, 0.0, HALF_PI) || Within(r, PI, PI + HALF_PI))
      && (tanA2 < 0.0 ==> Within(r, HALF_PI, PI) || Within(r, PI + HALF_PI, TWO_PI))
      && ((a2 >= 0.0 <==> tanA2 > 0.0) ==> HalfTurnsFrom(r, a2, false))
  {
  }

  /**
   * adjustA1: the azimuth at the first point from A1 = atan(p / q): p gives the sign of sin A1,
   * q the sign of cos A1; NaN when either is zero.
   */
  function AdjustA1(a1: real, p: real, q: real): (r: Option<real>)
    ensures r.None? <==> p == 0.0 || q == 0.0
  {
    var a := Abs(a1);
    if p > 0.0 && q > 0.0 then Some(a)
    else if p > 0.0 && q < 0.0 then Some(PI - a)
    else if p < 0.0 && q < 0.0 then Some(PI + a)
    else if p < 0.0 && q > 0.0 then Some(TWO_PI - a)
    else None
  }

  /**
   * For |A1| at most a quarter turn and non-zero p and q, the azimuth is in [0, 2 pi], in the
   * quadrant where sine and cosine have the signs of p and q, and, when A1 = atan(p / q) has the
   * sign of p / q, it differs from A1 by a whole number of half turns.
   */
  lemma AdjustA1Quadrant(a1: real, p: real, q: real)
    requires Abs(a1) <= HALF_PI && p != 0.0 && q != 0.0
    ensures AdjustA1(a1, p, q).Some?
    ensures var r := AdjustA1(a1, p, q).value;
      Within(r, 0.0, TWO_PI)
      && (p > 0.0 ==> Within(r, 0.0, PI)) && (p < 0.0 ==> Within(r, PI, TWO_PI))
      && (q > 0.0 ==> Within(r, 0.0, HALF_PI) || Within(r, PI + HALF_PI, TWO_PI))
      && (q < 0.0 ==> Within(r, HALF_PI, PI + HALF_PI))
      && ((a1 >= 0.0 <==> (p > 0.0 <==> q > 0.0)) ==> HalfTurnsFrom(r, a1, false))
  {
  }

  /** adjustSigma: the spherical distance in [0, pi] from the sign of cos sigma; NaN when it is zero. */
  function AdjustSigma(sigma: real, cosSigma: real): (r: Option<real>)
    ensures r.None? <==> cosSigma == 0.0
  {
    var a := Abs(sigma);
    if cosSigma > 0.0 then Some(a)
    else if cosSigma < 0.0 then Some(PI - a)
    else None
  }

  /** For |sigma| at most a quarter turn the distance is at most a quarter turn exactly when cos sigma is positive. */
  lemma AdjustSigmaRange(sigma: real, cosSigma: real)
    requires Abs(sigma) <= HALF_PI && cosSigma != 0.0
    ensures AdjustSigma(sigma, cosSigma).Some?
    ensures var r := AdjustSigma(sigma, cosSigma).value;
      Within(r, 0.0, PI) && (cosSigma > 0.0 ==> Within(r, 0.0, HALF_PI))
      && (cosSigma < 0.0 ==> Within(r, HALF_PI, PI))
  {
  }

  /**
   * calcAmRad: the mean azimuth from T and the signs of the latitude and longitude differences.
   * Its five cases cover every pair of reals, so the NaN branch is never taken.
   */
  function AmRad(t: real, dBs: real, dLs: real): (r: Option<real>)
    ensures r.Some?
  {
    if dBs > 0.0 && dLs >= 0.0 then Some(t)
    else if dBs < 0.0 && dLs >= 0.0 then Some(PI - t)
    else if dBs <= 0.0 && dLs < 0.0 then Some(PI + t)
    else if dBs > 0.0 && dLs < 0.0 then Some(TWO_PI - t)
    else if dBs == 0.0 && dLs >= 0.0 then Some(HALF_PI)
    else None
  }

  /**
   * For T in [0, pi/2] the mean azimuth is in [0, 2 pi], and it points north-east, south-east,
   * south-west or north-west as the signs of the differences say.
   */
  lemma AmRadQuadrant(t: real, dBs: real, dLs: real)
    requires Within(t, 0.0, HALF_PI)
    ensures var r := AmRad(t, dBs, dLs).value;
      Within(r, 0.0, TWO_PI)
      && (dBs > 0.0 && dLs >= 0.0 ==> Within(r, 0.0, HALF_PI))
      && (dBs < 0.0 && dLs >= 0.0 ==> Within(r, HALF_PI, PI))
      && (dBs <= 0.0 && dLs < 0.0 ==> Within(r, PI, PI + HALF_PI))
      && (dBs > 0.0 && dLs < 0.0 ==> Within(r, PI + HALF_PI, TWO_PI))
  {
  }

  // ---------------------------------------------------------------------------
  // Gauss mid-latitude formula terms.

  /** Gauss_Lemma_Coeff: the series coefficients at the mean latitude. */
  datatype GaussLemmaCoeff = GaussLemmaCoeff(
    r01: real, r21: real, r03: real,
    s10: real, s12: real, s30: real,
    t01: real, t21: real, t03: real)

  /** u: the east component of the distance, from the longitude and latitude differences in seconds. */
  function U(c: GaussLemmaCoeff, dLs: real, dBs: real): real
  {
    c.r01 * dLs + c.r21 * (dBs * dBs) * dLs + c.r03 * (dLs * dLs * dLs)
  }

  /** v: the north component of the distance. */
  function V(c: GaussLemmaCoeff, dLs: real, dBs: real): real
  {
    c.s10 * dBs + c.s12 * dBs * (dLs * dLs) + c.s30 * (dBs * dBs * dBs)
  }

  /** deltaAs: the azimuth convergence between the two points. */
  function DeltaAs(c: GaussLemmaCoeff, dLs: real, dBs: real): real
  {
    c.t01 * dLs + c.t21 * (dBs * dBs) * dLs + c.t03 * (dLs * dLs * dLs)
  }

  /** Mirroring the second point east-west negates u and deltaAs and keeps v; mirroring it north-south negates v and keeps u and deltaAs. */
  lemma GaussLemmaSymmetry(c: GaussLemmaCoeff, dLs: real, dBs: real)
    ensures U(c, -dLs, dBs) == -U(c, dLs, dBs) && U(c, dLs, -dBs) == U(c, dLs, dBs)
    ensures DeltaAs(c, -dLs, dBs) == -DeltaAs(c, dLs, dBs) && DeltaAs(c, dLs, -dBs) == DeltaAs(c, dLs, dBs)
    ensures V(c, dLs, -dBs) == -V(c, dLs, dBs) && V(c, -dLs, dBs) == V(c, dLs, dBs)
  {
    assert (-dLs) * (-dLs) == dLs * dLs;
    assert (-dBs) * (-dBs) == dBs * dBs;
    assert (-dLs) * (-dLs) * (-dLs) == -(dLs * dLs * dLs);
    assert (-dBs) * (-dBs) * (-dBs) == -(dBs * dBs * dBs);
  }

  // ---------------------------------------------------------------------------
  // Bessel formula coefficients.

  /** The ellipsoid constants the Bessel coefficients use: first and second eccentricity squared and the semi-minor axis. */
  datatype EllipsoidConstants = EllipsoidConstants(e2: real, ep2: real, b: real)

  /** Bessel_Formula_Coeff; beta_prime is NaN (`None`) when cos^2 A0 is zero, as 0 / 0 is. */
  datatype BesselCoeff = BesselCoeff(a: real, b: real, c: real, alpha: real, beta: real, betaPrime: Option<real>)

  /** calcBesselFormulaCoeff: the series coefficients from cos^2 A0 and the ellipsoid. */
  function BesselFormulaCoeff(cosA0p2: real, el: EllipsoidConstants): (r: BesselCoeff)
    ensures r.betaPrime.Some? <==> cosA0p2 != 0.0
  {
    var k2 := el.ep2 * cosA0p2;
    var k4 := k2 * k2;
    var k6 := k2 * k2 * k2;
    var e4 := el.e2 * el.e2;
    var e6 := el.e2 * el.e2 * el.e2;
    var cosA0p4 := cosA0p2 * cosA0p2;
    var beta := (e4 / 32.0 + e6 / 32.0) * cosA0p2 - (e6 / 64.0) * cosA0p4;
    BesselCoeff(
      el.b * (1.0 + k2 / 4.0 - 3.0 * k4 / 64.0 + 5.0 * k6 / 256.0),
      el.b * (k2 / 8.0 - k4 / 32.0 + 15.0 * k6 / 1024.0),
      el.b * (k4 / 128.0 - 3.0 * k6 / 512.0),
      (el.e2 / 2.0 + e4 / 8.0 + e6 / 16.0) - (e4 / 16.0 + e6 / 16.0) * cosA0p2 + (3.0 * e6 / 128.0) * cosA0p4,
      beta,
      if cosA0p2 == 0.0 then None else Some(2.0 * beta / cosA0p2))
  }

  /**
   * beta_prime is twice beta over cos^2 A0, which cancels to (e^4 + e^6) / 16 - e^6 cos^2 A0 / 32:
   * it has a finite limit as cos^2 A0 goes to zero.
   */
  lemma BetaPrimeCancels(cosA0p2: real, el: EllipsoidConstants)
    requires cosA0p2 != 0.0
    ensures var r := BesselFormulaCoeff(cosA0p2, el);
      r.betaPrime == Some(2.0 * r.beta / cosA0p2)
      && r.betaPrime.value
         == (el.e2 * el.e2 + el.e2 * el.e2 * el.e2) / 16.0 - el.e2 * el.e2 * el.e2 * cosA0p2 / 32.0
  {
    var e4 := el.e2 * el.e2;
    var e6 := el.e2 * el.e2 * el.e2;
    var beta := (e4 / 32.0 + e6 / 32.0) * cosA0p2 - (e6 / 64.0) * (cosA0p2 * cosA0p2);
    assert beta == cosA0p2 * ((e4 / 32.0 + e6 / 32.0) - (e6 / 64.0) * cosA0p2);
    assert 2.0 * beta / cosA0p2 == 2.0 * ((e4 / 32.0 + e6 / 32.0) - (e6 / 64.0) * cosA0p2);
  }

  /**
   * When k^2 = e'^2 cos^2 A0 is zero (a sphere, or a geodesic along the equator), the distance
   * coefficients reduce to A = b and B = C = 0.
   */
  lemma BesselOnSphere(cosA0p2: real, el: EllipsoidConstants)
    requires el.ep2 * cosA0p2 == 0.0
    ensures var r := BesselFormulaCoeff(cosA0p2, el);
      r.a == el.b && r.b == 0.0 && r.c == 0.0
  {
  }
}

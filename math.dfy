/** Approximate comparison and the clamped cubic spline. */
module MathUtils {
  import opened Reals

  /** Whether x and y are strictly closer than the threshold. */
  predicate EqApprox(x: real, y: real, threshold: real)
  {
    Abs(x - y) < threshold
  }

  /** eqApprox accepts exactly the pairs strictly closer than the threshold, in either order. */
  lemma EqApproxStrict(x: real, y: real, t: real)
    ensures EqApprox(x, y, t) <==> (x - y < t && y - x < t)
    ensures EqApprox(x, y, t) <==> EqApprox(y, x, t)
    ensures !EqApprox(x, x, 0.0) && !EqApprox(x, y, Abs(x - y))
  {
  }

  /**
   * A piecewise cubic: segment i covers [x[i], x[i+1]) with coefficients a[i], b[i],
   * c[i], d[i]; values are clamped by `threshold`.
   */
  datatype CubicSpline = CubicSpline(x: seq<real>, a: seq<real>, b: seq<real>, c: seq<real>, d: seq<real>, threshold: real)

  /** One knot more than segments and one coefficient of each kind per segment. */
  predicate WellFormed(sp: CubicSpline)
  {
    |sp.x| == |sp.a| + 1 && |sp.b| == |sp.a| && |sp.c| == |sp.a| && |sp.d| == |sp.a|
  }

  /** The cubic of segment `idx` at offset dx. */
  function Cubic(sp: CubicSpline, dx: real, idx: nat): real
    requires WellFormed(sp) && idx < |sp.a|
  {
    sp.a[idx] + sp.b[idx] * dx + sp.c[idx] * (dx * dx) + sp.d[idx] * (dx * dx * dx)
  }

  /**
   * invokeCubicSplineFunction: the cubic value when its magnitude is below the threshold,
   * and the (positive) threshold itself otherwise, whatever the sign of the value.
   */
  function InvokeSegment(sp: CubicSpline, dx: real, idx: nat): (v: real)
    requires WellFormed(sp) && idx < |sp.a|
    ensures Abs(Cubic(sp, dx, idx)) < sp.threshold ==> v == Cubic(sp, dx, idx)
    ensures Abs(Cubic(sp, dx, idx)) >= sp.threshold ==> v == sp.threshold
    ensures v <= sp.threshold
  {
    var value := Cubic(sp, dx, idx);
    if Abs(value) < sp.threshold then value else sp.threshold
  }

  /** The first segment from `i` on whose right knot lies beyond px, or 0 when there is none. */
  function SegmentFrom(x: seq<real>, n: nat, px: real, i: nat): (idx: nat)
    requires n + 1 <= |x| && i <= n
    ensures idx < n || idx == 0
    decreases n - i
  {
    if i == n then 0
    else if px < x[i + 1] then i
    else SegmentFrom(x, n, px, i + 1)
  }

  /** The value of the spline at px (Cubic_Spline_Function::operator()). */
  function SplineValue(sp: CubicSpline, px: real): real
    requires WellFormed(sp)
  {
    var n := |sp.a|;
    if n == 0 then 0.0
    else if px <= sp.x[0] then InvokeSegment(sp, px - sp.x[0], 0)
    else if px >= sp.x[n] then InvokeSegment(sp, px - sp.x[n], n - 1)
    else
      var idx := SegmentFrom(sp.x, n, px, 0);
      InvokeSegment(sp, px - sp.x[idx], idx)
  }

  /**
   * Evaluates the spline: no segments give 0, points left of the first knot use segment
   * 0, points right of the last knot use the last segment measured from the last knot,
   * and other points use the first segment whose right knot lies beyond them.
   */
  method Evaluate(sp: CubicSpline, px: real) returns (v: real)
    requires WellFormed(sp)
    ensures v == SplineValue(sp, px)
  {
    var n := |sp.a|;
    if n == 0 {
      return 0.0;
    }
    if px <= sp.x[0] {
      return InvokeSegment(sp, px - sp.x[0], 0);
    }
    if px >= sp.x[|sp.x| - 1] {
      return InvokeSegment(sp, px - sp.x[|sp.x| - 1], |sp.x| - 2);
    }
    var idx := 0;
    var i := 0;
    while i != n
      invariant 0 <= i <= n
      invariant SegmentFrom(sp.x, n, px, i) == SegmentFrom(sp.x, n, px, 0)
      invariant idx == 0
      decreases n - i
    {
      if px < sp.x[i + 1] {
        idx := i;
        break;
      }
      i := i + 1;
    }
    return InvokeSegment(sp, px - sp.x[idx], idx);
  }

  predicate Sorted(x: seq<real>)
  {
    forall i, j :: 0 <= i < j < |x| ==> x[i] <= x[j]
  }

  /** Searching from i, having passed every right knot before i, brackets px. */
  lemma {:induction false} SegmentFromBrackets(x: seq<real>, n: nat, px: real, i: nat)
    requires n + 1 <= |x| && i <= n && Sorted(x)
    requires x[0] < px < x[n]
    requires forall j :: 1 <= j <= i ==> x[j] <= px
    ensures var idx := SegmentFrom(x, n, px, i);
            idx < n && x[idx] <= px < x[idx + 1]
    decreases n - i
  {
    if i == n {
      assert false;
    } else if px < x[i + 1] {
    } else {
      SegmentFromBrackets(x, n, px, i + 1);
    }
  }

  /** For sorted knots and a point strictly inside them, the chosen segment contains the point. */
  lemma InteriorSegmentContainsPoint(sp: CubicSpline, px: real)
    requires WellFormed(sp) && |sp.a| > 0 && Sorted(sp.x)
    requires sp.x[0] < px < sp.x[|sp.a|]
    ensures var idx := SegmentFrom(sp.x, |sp.a|, px, 0);
            idx < |sp.a| && sp.x[idx] <= px < sp.x[idx + 1] &&
            SplineValue(sp, px) == InvokeSegment(sp, px - sp.x[idx], idx)
  {
    SegmentFromBrackets(sp.x, |sp.a|, px, 0);
  }

  /** The cases at the ends: no segments, left of the first knot, right of the last knot. */
  lemma SplineEnds(sp: CubicSpline, px: real)
    requires WellFormed(sp)
    ensures |sp.a| == 0 ==> SplineValue(sp, px) == 0.0
    ensures |sp.a| > 0 && px <= sp.x[0] ==> SplineValue(sp, px) == InvokeSegment(sp, px - sp.x[0], 0)
    ensures |sp.a| > 0 && sp.x[0] < px && px >= sp.x[|sp.a|] ==>
              SplineValue(sp, px) == InvokeSegment(sp, px - sp.x[|sp.a|], |sp.a| - 1)
    ensures |sp.a| > 0 ==> SplineValue(sp, px) <= sp.threshold
  {
  }
}

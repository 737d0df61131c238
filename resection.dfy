/**
 * spaceResection: the exterior orientation of one photograph from four or more control
 * points by iterated least squares on the linearised collinearity equations. The rotation
 * ex2yxzRotation, the linearisation, Eigen's QR least-squares solve, the matrix-inverse
 * solver and sqrt are supplied by the caller.
 */
module Resection {
  import opened Wrappers
  import opened Reals
  import opened Linalg
  import opened Photogrammetry
  import opened Collinearity

  /** Iterative_Algo_Info. */
  datatype Info = Success | NotConverged

  /** The members of the result that a converged resection fills in. */
  datatype Precision = Precision(rmse: real, sigma: Matrix, image: Matrix, rotate: Matrix)

  /** Space_Resection_Result: the pose, the verdict, and the precision when the verdict is Success. */
  datatype ResectionResult = ResectionResult(exterior: Exterior, info: Info, precision: Option<Precision>)

  /**
   * The collaborators of one resection: the yxz rotation matrix of a pose, the coefficient
   * solver (None where its result is non-finite), the QR least-squares solve, the inverse
   * solver and sqrt.
   */
  datatype Solvers = Solvers(
    rotation: Exterior -> Matrix, cce: CceParam -> Option<Cce>,
    qr: (Matrix, Matrix) -> Matrix, inverse: Matrix -> Matrix, sqrt: real -> real)

  /** One of the three linearisations of the collinearity equations as a coefficient solver. */
  function CceSolver(v: CceVariant, t: Trig): (cce: CceParam -> Option<Cce>)
  {
    (p: CceParam) => if IsShape(p.rotate, 3, 3) then CceOf(v, p, t) else None
  }

  /** Rotations are 3 x 3, a least-squares solution has one row per unknown, and inverses keep the shape. */
  ghost predicate WellShaped(s: Solvers)
  {
    (forall ex {:trigger s.rotation(ex)} :: IsShape(s.rotation(ex), 3, 3)) &&
    (forall a, l {:trigger s.qr(a, l)} :: IsShape(s.qr(a, l), a.cols, l.cols)) &&
    (forall n {:trigger s.inverse(n)} :: IsShape(s.inverse(n), n.rows, n.cols))
  }

  /** One image point (x, y) per object point (X, Y, Z). */
  predicate Paired(img: Matrix, obj: Matrix)
  {
    img.rows == obj.rows && img.cols == 2 && obj.cols == 3
  }

  // ---------------------------------------------------------------------------
  // Residual vector

  /** The residual column: the x and y differences of point i at rows 2i and 2i + 1. */
  function Interleave(d: Matrix): (l: Matrix)
    requires Valid(d) && d.cols == 2
    ensures IsShape(l, 2 * d.rows, 1)
  {
    Matrix(2 * d.rows, 1, seq(2 * d.rows, k requires 0 <= k < 2 * d.rows => [d.data[k / 2][k % 2]]))
  }

  /** A 2n x 1 column read back as n rows of (x, y) pairs. */
  function Deinterleave(l: Matrix): (d: Matrix)
    requires Valid(l) && l.cols >= 1 && l.rows % 2 == 0
    ensures IsShape(d, l.rows / 2, 2)
  {
    Matrix(l.rows / 2, 2, seq(l.rows / 2, i requires 0 <= i < l.rows / 2 => [l.data[2 * i][0], l.data[2 * i + 1][0]]))
  }

  /** Row 2i of the residual holds point i's x difference and row 2i + 1 its y difference. */
  lemma InterleaveEntries(d: Matrix, i: nat)
    requires Valid(d) && d.cols == 2 && i < d.rows
    ensures Interleave(d).data[2 * i] == [d.data[i][0]]
    ensures Interleave(d).data[2 * i + 1] == [d.data[i][1]]
  {
    assert (2 * i) / 2 == i && (2 * i) % 2 == 0;
    assert (2 * i + 1) / 2 == i && (2 * i + 1) % 2 == 1;
  }

  /** Interleaving loses nothing: reading the column back as pairs gives the differences again. */
  lemma DeinterleaveInterleave(d: Matrix)
    requires Valid(d) && d.cols == 2
    ensures Deinterleave(Interleave(d)) == d
  {
    var e := Deinterleave(Interleave(d));
    forall i | 0 <= i < d.rows
      ensures e.data[i] == d.data[i]
    {
      InterleaveEntries(d, i);
      assert d.data[i] == [d.data[i][0], d.data[i][1]];
    }
  }

  /** And every 2n x 1 column is the interleaving of its pairs. */
  lemma InterleaveDeinterleave(l: Matrix)
    requires Valid(l) && l.cols == 1 && l.rows % 2 == 0
    ensures Interleave(Deinterleave(l)) == l
  {
    var d := Deinterleave(l);
    var e := Interleave(d);
    forall k | 0 <= k < l.rows
      ensures e.data[k] == l.data[k]
    {
      assert l.data[k] == [l.data[k][0]];
      if k % 2 == 0 {
        assert k == 2 * (k / 2);
      } else {
        assert k == 2 * (k / 2) + 1;
      }
    }
  }

  /** The residual loop: a 2n x 1 matrix filled two entries per point. */
  method FillResidual(dxy: Matrix) returns (residual: Matrix)
    requires Valid(dxy) && dxy.cols == 2
    ensures residual == Interleave(dxy)
  {
    residual := Zero(2 * dxy.rows, 1);
    var li := 0;
    while li != dxy.rows
      invariant 0 <= li <= dxy.rows
      invariant IsShape(residual, 2 * dxy.rows, 1)
      invariant forall k :: 0 <= k < 2 * li ==> residual.data[k] == [dxy.data[k / 2][k % 2]]
    {
      residual := Assign(residual, 2 * li, 0, dxy.data[li][0]);
      residual := Assign(residual, 2 * li + 1, 0, dxy.data[li][1]);
      forall k | 0 <= k < 2 * li + 2
        ensures residual.data[k] == [dxy.data[k / 2][k % 2]]
      {
        assert residual.data[k] == [residual.data[k][0]];
      }
      li := li + 1;
    }
  }

  // ---------------------------------------------------------------------------
  // Coefficient matrix

  /** The linearisation parameters of every point at one pose, as the coefficient loop sets them. */
  function PointParams(inn: Interior, ex: Exterior, rotate: Matrix, imgCalc: Matrix, isp: Matrix): (ps: seq<CceParam>)
    requires IsShape(imgCalc, isp.rows, 2) && Valid(isp) && isp.cols == 3
    ensures |ps| == imgCalc.rows
    ensures forall i :: 0 <= i < |ps| ==> ps[i].rotate == rotate
  {
    seq(imgCalc.rows, i requires 0 <= i < imgCalc.rows =>
      CceParam(imgCalc.data[i][0], imgCalc.data[i][1], isp.data[i][2], inn.f, inn.f * inn.m, ex.kappa, ex.omega, rotate))
  }

  /** The 2n x 6 coefficient matrix: point i's a1* row at row 2i and its a2* row at row 2i + 1. */
  function CoefficientMatrix(cs: seq<Cce>): (a: Matrix)
    ensures IsShape(a, 2 * |cs|, 6)
  {
    Matrix(2 * |cs|, 6, seq(2 * |cs|, k requires 0 <= k < 2 * |cs| =>
      if k % 2 == 0 then Row1(cs[k / 2]) else Row2(cs[k / 2])))
  }

  /** Rows 2i and 2i + 1 of the coefficient matrix are the rows of point i's toMatrix26. */
  lemma CoefficientMatrixRows(cs: seq<Cce>, i: nat)
    requires i < |cs|
    ensures CoefficientMatrix(cs).data[2 * i] == ToMatrix26(cs[i]).data[0]
    ensures CoefficientMatrix(cs).data[2 * i + 1] == ToMatrix26(cs[i]).data[1]
  {
    assert (2 * i) / 2 == i && (2 * i) % 2 == 0;
    assert (2 * i + 1) / 2 == i && (2 * i + 1) % 2 == 1;
  }

  /** Every point's linearisation is finite. */
  predicate AllFinite(cce: CceParam -> Option<Cce>, ps: seq<CceParam>)
  {
    forall i :: 0 <= i < |ps| ==> cce(ps[i]).Some?
  }

  /** The coefficient matrix of the points, or nothing when a linearisation is non-finite. */
  function Coefficients(cce: CceParam -> Option<Cce>, ps: seq<CceParam>): (r: Option<Matrix>)
    ensures r.Some? <==> AllFinite(cce, ps)
    ensures r.Some? ==> IsShape(r.value, 2 * |ps|, 6)
  {
    if AllFinite(cce, ps)
    then Some(CoefficientMatrix(seq(|ps|, i requires 0 <= i < |ps| => cce(ps[i]).value)))
    else None
  }

  /**
   * With one of the three linearisations as the solver, the coefficients of a non-empty point
   * set are finite exactly when f and H = f·m are non-zero (all angles zero or kappa only),
   * or when f and every image-space Z are non-zero (rigorous).
   */
  lemma CceSolverFinite(v: CceVariant, t: Trig, inn: Interior, ex: Exterior, rotate: Matrix, imgCalc: Matrix, isp: Matrix)
    requires IsShape(rotate, 3, 3) && IsShape(imgCalc, isp.rows, 2) && Valid(isp) && isp.cols == 3 && isp.rows > 0
    ensures var ps := PointParams(inn, ex, rotate, imgCalc, isp);
            v != SimplifyNone ==> (AllFinite(CceSolver(v, t), ps) <==> inn.f != 0.0 && inn.f * inn.m != 0.0)
    ensures var ps := PointParams(inn, ex, rotate, imgCalc, isp);
            v == SimplifyNone ==> (AllFinite(CceSolver(v, t), ps) <==> inn.f != 0.0 && NonZeroDepths(isp))
  {
    var ps := PointParams(inn, ex, rotate, imgCalc, isp);
    var cce := CceSolver(v, t);
    forall i | 0 <= i < |ps|
      ensures cce(ps[i]) == CceOf(v, ps[i], t)
    {
    }
    assert cce(ps[0]) == CceOf(v, ps[0], t);
    if v == SimplifyNone && AllFinite(cce, ps) {
      forall i | 0 <= i < isp.rows
        ensures isp.data[i][2] != 0.0
      {
        assert cce(ps[i]).Some? && ps[i].z == isp.data[i][2];
      }
    }
  }

  /** The coefficient loop: two rows written per point. */
  method FillCoefficients(cce: CceParam -> Option<Cce>, ps: seq<CceParam>) returns (r: Option<Matrix>)
    ensures r == Coefficients(cce, ps)
  {
    var coefficient := Zero(2 * |ps|, 6);
    ghost var cs: seq<Cce> := [];
    var pi := 0;
    while pi != |ps|
      invariant 0 <= pi <= |ps| && |cs| == pi
      invariant IsShape(coefficient, 2 * |ps|, 6)
      invariant forall j :: 0 <= j < pi ==> cce(ps[j]) == Some(cs[j])
      invariant forall k :: 0 <= k < 2 * pi ==> coefficient.data[k] == CoefficientMatrix(cs).data[k]
    {
      var c := cce(ps[pi]);
      if c.None? {
        return None;
      }
      var cc := c.value;
      coefficient := coefficient.(data := coefficient.data[2 * pi := Row1(cc)][2 * pi + 1 := Row2(cc)]);
      ghost var cs' := cs + [cc];
      forall k | 0 <= k < 2 * pi + 2
        ensures coefficient.data[k] == CoefficientMatrix(cs').data[k]
      {
        if k < 2 * pi {
          assert CoefficientMatrix(cs').data[k] == CoefficientMatrix(cs).data[k];
        } else {
          CoefficientMatrixRows(cs', pi);
        }
      }
      cs := cs';
      pi := pi + 1;
    }
    assert cs == seq(|ps|, i requires 0 <= i < |ps| => cce(ps[i]).value);
    assert coefficient.data == CoefficientMatrix(cs).data;
    return Some(coefficient);
  }

  // ---------------------------------------------------------------------------
  // One pass

  /** What one pass computes: the rotation, the projected points, the normal equations' inputs and the correction. */
  datatype Linearization = Linearization(rotate: Matrix, isp: Matrix, imgCalc: Matrix, residual: Matrix, coefficient: Matrix, correction: Matrix)

  /** The object points carried into image space: obj2aux, then aux2isp. */
  function ProjectPoints(obj: Matrix, ex: Exterior, rotate: Matrix): (isp: Matrix)
    requires Valid(obj) && obj.cols == 3 && IsShape(rotate, 3, 3)
    ensures IsShape(isp, obj.rows, 3)
  {
    Aux2Isp(Obj2Aux(obj, ex).value, rotate).value
  }

  /** ols with the default placeholder weight: the QR least-squares solution of A·x = l. */
  function Solve(a: Matrix, l: Matrix, s: Solvers): (x: Matrix)
    requires Valid(a) && Valid(l) && l.rows == a.rows && WellShaped(s)
    ensures x == s.qr(a, l) && IsShape(x, a.cols, l.cols)
  {
    var placeholder := Matrix(1, 1, [[0.0]]);
    assert IsPlaceHolder(placeholder) by { assert IsZero(placeholder); }
    Ols(a, l, placeholder, s.inverse, s.qr)
  }

  /** The shapes of a pass over n points: 2n x 6 coefficients, a 2n x 1 residual, six corrections. */
  predicate PassShaped(p: Linearization, n: nat)
  {
    IsShape(p.coefficient, 2 * n, 6) && IsShape(p.residual, 2 * n, 1) && IsShape(p.correction, 6, 1)
  }

  /**
   * One pass at pose ex: project the object points, take the image residuals, linearise every
   * point and solve the unweighted least-squares problem for the six corrections. A point on
   * the image plane (Z = 0) or a non-finite linearisation makes the pass non-finite.
   */
  function Linearize(inn: Interior, img: Matrix, obj: Matrix, ex: Exterior, s: Solvers): (r: Result<Linearization>)
    requires Valid(img) && Valid(obj) && Paired(img, obj) && WellShaped(s)
    ensures r.Err? ==> r.error == NonFinite
    ensures r.Ok? ==> r.value.rotate == s.rotation(ex) && PassShaped(r.value, img.rows)
    ensures r.Ok? ==> r.value.correction == s.qr(r.value.coefficient, r.value.residual)
  {
    var rotate := s.rotation(ex);
    var isp := ProjectPoints(obj, ex, rotate);
    match Isp2Img(isp, inn)
    case Err(e) => Err(e)
    case Ok(imgCalc) =>
      var residual := Interleave(Sub(img, imgCalc));
      match Coefficients(s.cce, PointParams(inn, ex, rotate, imgCalc, isp))
      case None => Err(NonFinite)
      case Some(a) => Ok(Linearization(rotate, isp, imgCalc, residual, a, Solve(a, residual, s)))
  }

  /** step is Linearize for this problem (instantiated only where a Linearize term is at hand). */
  ghost predicate Computes(step: Exterior -> Result<Linearization>, inn: Interior, img: Matrix, obj: Matrix, s: Solvers)
    requires Valid(img) && Valid(obj) && Paired(img, obj) && WellShaped(s)
  {
    forall ex {:trigger Linearize(inn, img, obj, ex, s)} :: step(ex) == Linearize(inn, img, obj, ex, s)
  }

  /** One pass at pose ex, with the residual and coefficient loops: the pass Linearize specifies. */
  method LinearizePass(inn: Interior, img: Matrix, obj: Matrix, ex: Exterior, s: Solvers, ghost step: Exterior -> Result<Linearization>)
    returns (r: Result<Linearization>)
    requires Valid(img) && Valid(obj) && Paired(img, obj) && WellShaped(s) && Computes(step, inn, img, obj, s)
    ensures r == step(ex)
  {
    assert step(ex) == Linearize(inn, img, obj, ex, s);
    var rotate := s.rotation(ex);
    var isp := ProjectPoints(obj, ex, rotate);
    var projected := Isp2Img(isp, inn);
    if projected.Err? {
      return Err(projected.error);
    }
    var imgCalc := projected.value;
    var residual := FillResidual(Sub(img, imgCalc));
    var coefficient := FillCoefficients(s.cce, PointParams(inn, ex, rotate, imgCalc, isp));
    if coefficient.None? {
      return Err(NonFinite);
    }
    var a := coefficient.value;
    var correction := Solve(a, residual, s);
    return Ok(Linearization(rotate, isp, imgCalc, residual, a, correction));
  }

  /** The angle corrections (phi, omega, kappa) are all below the threshold in magnitude. */
  predicate Converged(c: Matrix, threshold: real)
    requires IsShape(c, 6, 1)
    ensures Converged(c, threshold) ==> threshold > 0.0
  {
    Abs(c.data[3][0]) < threshold && Abs(c.data[4][0]) < threshold && Abs(c.data[5][0]) < threshold
  }

  /** All six corrections added to the pose. */
  function Apply(ex: Exterior, c: Matrix): (r: Exterior)
    requires IsShape(c, 6, 1)
    ensures r.x - ex.x == c.data[0][0] && r.y - ex.y == c.data[1][0] && r.z - ex.z == c.data[2][0]
    ensures r.phi - ex.phi == c.data[3][0] && r.omega - ex.omega == c.data[4][0]
    ensures r.kappa - ex.kappa == c.data[5][0]
  {
    Exterior(ex.x + c.data[0][0], ex.y + c.data[1][0], ex.z + c.data[2][0],
             ex.phi + c.data[3][0], ex.omega + c.data[4][0], ex.kappa + c.data[5][0])
  }

  // ---------------------------------------------------------------------------
  // The iteration

  /** The pass to run at a pose, for a fixed problem. */
  function PassAt(inn: Interior, img: Matrix, obj: Matrix, s: Solvers): (step: Exterior -> Result<Linearization>)
    requires Valid(img) && Valid(obj) && Paired(img, obj) && WellShaped(s)
    ensures Computes(step, inn, img, obj, s) && StepShaped(step)
  {
    ex => Linearize(inn, img, obj, ex, s)
  }

  /** Every finite pass yields six corrections. */
  ghost predicate StepShaped(step: Exterior -> Result<Linearization>)
  {
    forall ex :: step(ex).Ok? ==> IsShape(step(ex).value.correction, 6, 1)
  }

  /**
   * At most `budget` passes from pose ex: the pose and the pass that converged, or the pose
   * after the last correction and no pass when none converged.
   */
  function Iterate(step: Exterior -> Result<Linearization>, ex: Exterior, budget: nat, threshold: real)
    : (r: Result<(Exterior, Option<Linearization>)>)
    requires StepShaped(step)
    ensures r.Err? ==> exists e :: step(e) == Err(r.error)
    ensures r.Ok? && r.value.1.Some? ==> step(r.value.0) == Ok(r.value.1.value)
    decreases budget
  {
    if budget == 0 then Ok((ex, None))
    else
      match step(ex)
      case Err(e) => Err(e)
      case Ok(p) =>
        if Converged(p.correction, threshold) then Ok((ex, Some(p)))
        else Iterate(step, Apply(ex, p.correction), budget - 1, threshold)
  }

  /** One pass of the iteration: stop on a non-finite or converged pass, otherwise correct and go on. */
  lemma IterateUnfold(step: Exterior -> Result<Linearization>, ex: Exterior, budget: nat, threshold: real)
    requires StepShaped(step) && budget > 0
    ensures step(ex).Err? ==> Iterate(step, ex, budget, threshold) == Err(step(ex).error)
    ensures step(ex).Ok? && Converged(step(ex).value.correction, threshold) ==>
              Iterate(step, ex, budget, threshold) == Ok((ex, Some(step(ex).value)))
    ensures step(ex).Ok? && !Converged(step(ex).value.correction, threshold) ==>
              Iterate(step, ex, budget, threshold) == Iterate(step, Apply(ex, step(ex).value.correction), budget - 1, threshold)
  {
  }

  /** The pose after k passes whose corrections were all applied, whatever their size. */
  function Passes(step: Exterior -> Result<Linearization>, ex: Exterior, k: nat): Result<Exterior>
    requires StepShaped(step)
    decreases k
  {
    if k == 0 then Ok(ex)
    else
      match step(ex)
      case Err(e) => Err(e)
      case Ok(p) => Passes(step, Apply(ex, p.correction), k - 1)
  }

  /** The first k passes from ex are finite and none of them converges. */
  predicate NoneConverged(step: Exterior -> Result<Linearization>, ex: Exterior, k: nat, threshold: real)
    requires StepShaped(step)
    decreases k
  {
    k == 0 ||
    (step(ex).Ok? && !Converged(step(ex).value.correction, threshold) &&
     NoneConverged(step, Apply(ex, step(ex).value.correction), k - 1, threshold))
  }

  /**
   * A converged outcome is the pose reached after k < budget unconverged passes, and the pass
   * taken there converges; its correction is not applied.
   */
  lemma {:induction false} IterateConverged(step: Exterior -> Result<Linearization>, ex: Exterior, budget: nat, threshold: real)
    requires StepShaped(step)
    requires Iterate(step, ex, budget, threshold).Ok? && Iterate(step, ex, budget, threshold).value.1.Some?
    ensures var (e, p) := Iterate(step, ex, budget, threshold).value;
            Converged(p.value.correction, threshold) &&
            exists k :: 0 <= k < budget && Passes(step, ex, k) == Ok(e) && NoneConverged(step, ex, k, threshold)
    decreases budget
  {
    var (e, p) := Iterate(step, ex, budget, threshold).value;
    var q := step(ex).value;
    if Converged(q.correction, threshold) {
      assert Passes(step, ex, 0) == Ok(e);
      assert NoneConverged(step, ex, 0, threshold);
    } else {
      var next := Apply(ex, q.correction);
      IterateConverged(step, next, budget - 1, threshold);
      var k :| 0 <= k < budget - 1 && Passes(step, next, k) == Ok(e) && NoneConverged(step, next, k, threshold);
      assert Passes(step, ex, k + 1) == Ok(e);
      assert NoneConverged(step, ex, k + 1, threshold);
    }
  }

  /** An outcome without a converged pass is the pose after all `budget` passes, none of which converged. */
  lemma {:induction false} IterateExhausted(step: Exterior -> Result<Linearization>, ex: Exterior, budget: nat, threshold: real)
    requires StepShaped(step)
    requires Iterate(step, ex, budget, threshold).Ok? && Iterate(step, ex, budget, threshold).value.1.None?
    ensures Passes(step, ex, budget) == Ok(Iterate(step, ex, budget, threshold).value.0)
    ensures NoneConverged(step, ex, budget, threshold)
    decreases budget
  {
    if budget > 0 {
      IterateExhausted(step, Apply(ex, step(ex).value.correction), budget - 1, threshold);
    }
  }

  // ---------------------------------------------------------------------------
  // The result

  /** The observed image points moved by their residuals and scaled by 1000 (metres to millimetres). */
  function CorrectedImage(img: Matrix, v: Matrix): (p: Matrix)
    requires Valid(img) && img.cols == 2 && IsShape(v, 2 * img.rows, 1)
    ensures IsShape(p, img.rows, 2)
  {
    var d := Deinterleave(v);
    Times(Matrix(img.rows, 2, seq(img.rows, i requires 0 <= i < img.rows =>
      [img.data[i][0] + d.data[i][0], img.data[i][1] + d.data[i][1]])), 1000.0)
  }

  /** The image loop of the converged branch, writing both coordinates of every point in place. */
  method CorrectImage(img: Matrix, v: Matrix) returns (p: Matrix)
    requires Valid(img) && img.cols == 2 && IsShape(v, 2 * img.rows, 1)
    ensures p == CorrectedImage(img, v)
  {
    p := img;
    var pc := v.rows / 2;
    var pi := 0;
    while pi != pc
      invariant 0 <= pi <= pc == img.rows
      invariant IsShape(p, img.rows, 2)
      invariant forall i :: 0 <= i < pi ==> p.data[i] == CorrectedImage(img, v).data[i]
      invariant forall i :: pi <= i < img.rows ==> p.data[i] == img.data[i]
    {
      p := Assign(p, pi, 0, (p.data[pi][0] + v.data[2 * pi][0]) * 1000.0);
      p := Assign(p, pi, 1, (p.data[pi][1] + v.data[2 * pi + 1][0]) * 1000.0);
      assert p.data[pi] == CorrectedImage(img, v).data[pi];
      pi := pi + 1;
    }
  }

  /** The residuals v = A·x − l of a pass. */
  function Residuals(p: Linearization): (v: Matrix)
    requires Valid(p.coefficient) && IsShape(p.correction, p.coefficient.cols, 1)
    requires IsShape(p.residual, p.coefficient.rows, 1)
    ensures IsShape(v, p.coefficient.rows, 1)
  {
    Sub(Mul(p.coefficient, p.correction), p.residual)
  }

  /** The sum of the squared residuals, vᵀv. */
  function SquaredResiduals(v: Matrix): real
    requires Valid(v) && v.cols == 1
  {
    Dot(Column(v, 0), Column(v, 0))
  }

  /**
   * rmse of the residuals over n − t degrees of freedom (n > t observations), unweighted;
   * with a true square root, rmse² · (n − t) is vᵀv.
   */
  function ResidualRmse(v: Matrix, t: nat, sqrt: real -> real): (r: real)
    requires Valid(v) && v.cols == 1 && v.rows > t
    ensures IsSqrtOf(sqrt, SquaredResiduals(v) / (v.rows - t) as real) ==>
              r >= 0.0 && r * r * (v.rows - t) as real == SquaredResiduals(v)
  {
    var placeholder := Matrix(1, 1, [[0.0]]);
    RmseOfResiduals(v, t, placeholder, sqrt);
    Rmse(v, v.rows, t, placeholder, sqrt).value
  }

  lemma RmseOfResiduals(v: Matrix, t: nat, placeholder: Matrix, sqrt: real -> real)
    requires Valid(v) && v.cols == 1 && v.rows > t && placeholder == Matrix(1, 1, [[0.0]])
    ensures IsPlaceHolder(placeholder) && SquareSum(v, placeholder) == SquaredResiduals(v)
    ensures IsSqrtOf(sqrt, SquaredResiduals(v) / (v.rows - t) as real) ==>
              var r := Rmse(v, v.rows, t, placeholder, sqrt).value;
              r >= 0.0 && r * r * (v.rows - t) as real == SquaredResiduals(v)
  {
    assert IsZero(placeholder);
    SquareSumUnweighted(v, placeholder);
    if IsSqrtOf(sqrt, SquareSum(v, placeholder) / (v.rows - t) as real) {
      RmseSquared(v, v.rows, t, placeholder, sqrt);
    }
  }

  /** The precision of a converged pass: rmse over 2n − 6 degrees of freedom, sigma from (AᵀA)⁻¹, the corrected image and the rotation. */
  function Finish(img: Matrix, p: Linearization, s: Solvers): (r: Precision)
    requires Valid(img) && img.cols == 2 && img.rows >= 4 && WellShaped(s) && PassShaped(p, img.rows)
    ensures r.image == CorrectedImage(img, Residuals(p)) && r.rotate == p.rotate
    ensures r.rmse == ResidualRmse(Residuals(p), 6, s.sqrt)
    ensures IsShape(r.sigma, 6, 6)
  {
    var v := Residuals(p);
    var rmse := ResidualRmse(v, 6, s.sqrt);
    var nInv := s.inverse(Mul(Transpose(p.coefficient), p.coefficient));
    Precision(rmse, ErrorMatrix(rmse, nInv, s.sqrt), CorrectedImage(img, v), p.rotate)
  }

  /** The converged branch: residuals, rmse, sigma, the corrected image written in place, and the rotation. */
  method FinishPass(img: Matrix, p: Linearization, s: Solvers) returns (r: Precision)
    requires Valid(img) && img.cols == 2 && img.rows >= 4 && WellShaped(s) && PassShaped(p, img.rows)
    ensures r == Finish(img, p, s)
  {
    var v := Residuals(p);
    var nInv := s.inverse(Mul(Transpose(p.coefficient), p.coefficient));
    var rmse := ResidualRmse(v, 6, s.sqrt);
    var sigma := ErrorMatrix(rmse, nInv, s.sqrt);
    var image := CorrectImage(img, v);
    r := Precision(rmse, sigma, image, p.rotate);
  }

  /**
   * The specification of spaceResection: an invalid argument for mismatched shapes or fewer
   * than four points; otherwise the iteration from makeFrom, Success with its precision when
   * a pass converged and NotConverged with the last pose when the budget ran out.
   */
  function Resect(inn: Interior, img: Matrix, obj: Matrix, maxLoop: nat, threshold: real, s: Solvers)
    : (r: Result<ResectionResult>)
    requires Valid(img) && Valid(obj) && WellShaped(s)
    ensures r == Err(InvalidArgument) <==> !Paired(img, obj) || img.rows < 4
    ensures r.Err? ==> r.error == InvalidArgument || r.error == NonFinite
    ensures r.Ok? ==> (r.value.info == Success <==> r.value.precision.Some?)
    ensures r.Ok? && maxLoop == 0 ==> r.value == ResectionResult(MakeFrom(inn, obj), NotConverged, None)
  {
    if !Paired(img, obj) then Err(InvalidArgument)
    else if img.rows < 4 then Err(InvalidArgument)
    else
      match Iterate(PassAt(inn, img, obj, s), MakeFrom(inn, obj), maxLoop, threshold)
      case Err(e) => Err(e)
      case Ok((ex, None)) => Ok(ResectionResult(ex, NotConverged, None))
      case Ok((ex, Some(p))) => Ok(ResectionResult(ex, Success, Some(Finish(img, p, s))))
  }

  /**
   * The while loop of spaceResection: at most maxLoop passes from the start pose, updating
   * the pose in place and stopping at the first pass whose angle corrections are below the
   * threshold or at a non-finite pass.
   */
  method RunPasses(inn: Interior, img: Matrix, obj: Matrix, start: Exterior, maxLoop: nat, threshold: real, s: Solvers,
                   ghost step: Exterior -> Result<Linearization>)
    returns (r: Result<(Exterior, Option<Linearization>)>)
    requires Valid(img) && Valid(obj) && Paired(img, obj) && WellShaped(s)
    requires Computes(step, inn, img, obj, s) && StepShaped(step)
    ensures r == Iterate(step, start, maxLoop, threshold)
  {
    var exterior := start;
    var loops := maxLoop;
    while loops > 0
      invariant Iterate(step, exterior, loops, threshold) == Iterate(step, start, maxLoop, threshold)
      decreases loops
    {
      var linear := LinearizePass(inn, img, obj, exterior, s, step);
      IterateUnfold(step, exterior, loops, threshold);
      loops := loops - 1;
      if linear.Err? {
        return Err(linear.error);
      }
      var p := linear.value;
      if Converged(p.correction, threshold) {
        return Ok((exterior, Some(p)));
      }
      exterior := Apply(exterior, p.correction);
    }
    return Ok((exterior, None));
  }

  /**
   * spaceResection: the shape checks, the loop, and the precision of the pass that converged
   * (the loop breaks right after that pass, so finishing it after the loop is the same).
   */
  method SpaceResection(inn: Interior, img: Matrix, obj: Matrix, maxLoop: nat, threshold: real, s: Solvers)
    returns (r: Result<ResectionResult>)
    requires Valid(img) && Valid(obj) && WellShaped(s)
    ensures r == Resect(inn, img, obj, maxLoop, threshold, s)
  {
    if !(img.rows == obj.rows && img.cols == 2 && obj.cols == 3) {
      return Err(InvalidArgument);
    }
    if !(img.rows >= 4) {
      return Err(InvalidArgument);
    }
    var outcome := RunPasses(inn, img, obj, MakeFrom(inn, obj), maxLoop, threshold, s, PassAt(inn, img, obj, s));
    match outcome {
      case Err(e) =>
        r := Err(e);
      case Ok((exterior, None)) =>
        r := Ok(ResectionResult(exterior, NotConverged, None));
      case Ok((exterior, Some(p))) =>
        var precision := FinishPass(img, p, s);
        r := Ok(ResectionResult(exterior, Success, Some(precision)));
    }
  }

  /**
   * A Success outcome was reached after k < maxLoop passes from makeFrom that did not
   * converge, and the pass at the returned pose converges; its correction is not applied.
   */
  lemma ResectSuccess(inn: Interior, img: Matrix, obj: Matrix, maxLoop: nat, threshold: real, s: Solvers)
    requires Valid(img) && Valid(obj) && WellShaped(s)
    requires Resect(inn, img, obj, maxLoop, threshold, s).Ok?
    requires Resect(inn, img, obj, maxLoop, threshold, s).value.info == Success
    ensures Paired(img, obj) && img.rows >= 4
    ensures var ex := Resect(inn, img, obj, maxLoop, threshold, s).value.exterior;
            var step := PassAt(inn, img, obj, s);
            step(ex).Ok? && Converged(step(ex).value.correction, threshold) &&
            exists k :: 0 <= k < maxLoop && Passes(step, MakeFrom(inn, obj), k) == Ok(ex) &&
                        NoneConverged(step, MakeFrom(inn, obj), k, threshold)
  {
    IterateConverged(PassAt(inn, img, obj, s), MakeFrom(inn, obj), maxLoop, threshold);
  }

  /** A NotConverged outcome is the pose after all maxLoop passes from makeFrom, none of which converged. */
  lemma ResectNotConverged(inn: Interior, img: Matrix, obj: Matrix, maxLoop: nat, threshold: real, s: Solvers)
    requires Valid(img) && Valid(obj) && WellShaped(s)
    requires Resect(inn, img, obj, maxLoop, threshold, s).Ok?
    requires Resect(inn, img, obj, maxLoop, threshold, s).value.info == NotConverged
    ensures Paired(img, obj) && img.rows >= 4
    ensures var step := PassAt(inn, img, obj, s);
            Passes(step, MakeFrom(inn, obj), maxLoop) == Ok(Resect(inn, img, obj, maxLoop, threshold, s).value.exterior) &&
            NoneConverged(step, MakeFrom(inn, obj), maxLoop, threshold)
  {
    IterateExhausted(PassAt(inn, img, obj, s), MakeFrom(inn, obj), maxLoop, threshold);
  }
}

/**
 * Collinearity-equation building blocks of the photogrammetric solvers: orientation records,
 * the object → auxiliary → image-space → image chain of coordinate transforms, the initial
 * exterior orientation, and the three linearisations of the collinearity equations.
 * Rotation matrices and sin/cos are supplied as functions.
 */
module Photogrammetry {
  import opened Wrappers
  import opened Linalg

  /** Interior orientation: principal point, focal length and photo-scale denominator. */
  datatype Interior = Interior(x: real, y: real, f: real, m: real)

  /** Exterior orientation: projection centre and the phi-omega-kappa angles. */
  datatype Exterior = Exterior(x: real, y: real, z: real, phi: real, omega: real, kappa: real)

  // ---------------------------------------------------------------------------
  // Exterior::makeFrom

  /** The sum of a sequence, added from the front. */
  function Sum(s: seq<real>): real
  {
    if |s| == 0 then 0.0 else Sum(s[..|s| - 1]) + s[|s| - 1]
  }

  /** The column mean, as Eigen's `col(j).mean()`: defined for a non-empty column. */
  function Mean(m: Matrix, j: nat): (r: real)
    requires Valid(m) && j < m.cols && m.rows > 0
    ensures r * m.rows as real == Sum(Column(m, j))
  {
    Sum(Column(m, j)) / m.rows as real
  }

  /**
   * Exterior::makeFrom: the starting pose for resection, above the centroid of the object
   * points at the flying height m·f, looking straight down.
   */
  function MakeFrom(inn: Interior, obj: Matrix): (ex: Exterior)
    requires Valid(obj) && obj.cols >= 3 && obj.rows > 0
    ensures ex.x == Mean(obj, 0) && ex.y == Mean(obj, 1)
    ensures ex.z == Mean(obj, 2) + inn.m * inn.f
    ensures ex.phi == 0.0 && ex.omega == 0.0 && ex.kappa == 0.0
  {
    Exterior(Mean(obj, 0), Mean(obj, 1), Mean(obj, 2) + inn.m * inn.f, 0.0, 0.0, 0.0)
  }

  /** Lowering every entry of a sequence by d lowers its sum by |s| · d. */
  lemma {:induction false} SumShift(s: seq<real>, t: seq<real>, d: real)
    requires |s| == |t| && forall i :: 0 <= i < |s| ==> t[i] == s[i] - d
    ensures Sum(t) == Sum(s) - |s| as real * d
  {
    if |s| > 0 {
      SumShift(s[..|s| - 1], t[..|t| - 1], d);
    }
  }

  /** Lowering every entry of a non-empty sequence by d lowers its mean by d. */
  lemma {:induction false} MeanShift(s: seq<real>, t: seq<real>, d: real)
    requires |s| == |t| > 0 && forall i :: 0 <= i < |s| ==> t[i] == s[i] - d
    ensures Sum(t) / |t| as real == Sum(s) / |s| as real - d
  {
    SumShift(s, t, d);
    DivShift(Sum(s), |s| as real, d);
  }

  lemma DivShift(a: real, n: real, d: real)
    requires n != 0.0
    ensures (a - n * d) / n == a / n - d
  {
  }

  /** Shifting the object points by an offset shifts the starting pose by the same offset and keeps its angles. */
  lemma MakeFromTranslated(inn: Interior, obj: Matrix, dx: real, dy: real, dz: real)
    requires Valid(obj) && obj.cols == 3 && obj.rows > 0
    ensures var moved := Translate(obj, dx, dy, dz).value;
      MakeFrom(inn, moved) == MakeFrom(inn, obj).(x := MakeFrom(inn, obj).x - dx,
                                                   y := MakeFrom(inn, obj).y - dy,
                                                   z := MakeFrom(inn, obj).z - dz)
  {
    var moved := Translate(obj, dx, dy, dz).value;
    MeanShift(Column(obj, 0), Column(moved, 0), dx);
    MeanShift(Column(obj, 1), Column(moved, 1), dy);
    MeanShift(Column(obj, 2), Column(moved, 2), dz);
  }

  // ---------------------------------------------------------------------------
  // Coordinate chain

  /** Every point lies off the image plane: its image-space Z is not zero. */
  predicate NonZeroDepths(isp: Matrix)
    requires Valid(isp) && isp.cols >= 3
  {
    forall i :: 0 <= i < isp.rows ==> isp.data[i][2] != 0.0
  }

  /** The central projection of one image-space point: x = -f·X/Z, y = -f·Y/Z. */
  function ImagePoint(p: seq<real>, f: real): seq<real>
    requires |p| >= 3 && p[2] != 0.0
  {
    [-f * (p[0] / p[2]), -f * (p[1] / p[2])]
  }

  /**
   * isp2img: the image coordinates of image-space points, one row per point. A point with
   * Z = 0 makes the division non-finite.
   */
  function Isp2Img(isp: Matrix, inn: Interior): (r: Result<Matrix>)
    requires Valid(isp) && isp.cols >= 3
    ensures r.Err? <==> !NonZeroDepths(isp)
    ensures r.Err? ==> r.error == NonFinite
    ensures r.Ok? ==> IsShape(r.value, isp.rows, 2)
  {
    if !NonZeroDepths(isp) then Err(NonFinite)
    else Ok(Matrix(isp.rows, 2, seq(isp.rows, i requires 0 <= i < isp.rows => ImagePoint(isp.data[i], inn.f))))
  }

  /** Whether an image point (x, y) satisfies the collinearity condition with the image-space point (X, Y, Z): x·Z = -f·X and y·Z = -f·Y. */
  predicate Collinear(img: seq<real>, p: seq<real>, f: real)
    requires |img| == 2 && |p| >= 3
  {
    img[0] * p[2] == -f * p[0] && img[1] * p[2] == -f * p[1]
  }

  /** Each image point is the one collinear with its space point and the projection centre, and the only one. */
  lemma Isp2ImgCollinear(isp: Matrix, inn: Interior, i: nat, img: seq<real>)
    requires Valid(isp) && isp.cols >= 3 && NonZeroDepths(isp) && i < isp.rows && |img| == 2
    ensures Collinear(Isp2Img(isp, inn).value.data[i], isp.data[i], inn.f)
    ensures Collinear(img, isp.data[i], inn.f) <==> img == Isp2Img(isp, inn).value.data[i]
  {
    var p := isp.data[i];
    var q := Isp2Img(isp, inn).value.data[i];
    assert q == ImagePoint(p, inn.f);
    assert -inn.f * (p[0] / p[2]) * p[2] == -inn.f * p[0];
    assert -inn.f * (p[1] / p[2]) * p[2] == -inn.f * p[1];
    if Collinear(img, p, inn.f) {
      SolveForImage(img[0], p[0], p[2], inn.f);
      SolveForImage(img[1], p[1], p[2], inn.f);
      assert img[0] == q[0] && img[1] == q[1];
      assert img == [img[0], img[1]] && q == [q[0], q[1]];
    }
  }

  lemma SolveForImage(u: real, a: real, z: real, f: real)
    requires z != 0.0 && u * z == -f * a
    ensures u == -f * (a / z)
  {
    assert u == (u * z) / z;
  }

  lemma CancelScale(a: real, b: real, s: real)
    requires b != 0.0 && s != 0.0
    ensures (a * s) / (b * s) == a / b
  {
  }

  lemma ScaledImagePoint(p: seq<real>, q: seq<real>, f: real, s: real)
    requires |p| >= 3 && |q| >= 3 && p[2] != 0.0 && s != 0.0
    requires q[0] == p[0] * s && q[1] == p[1] * s && q[2] == p[2] * s
    ensures ImagePoint(q, f) == ImagePoint(p, f)
  {
    CancelScale(p[0], p[2], s);
    CancelScale(p[1], p[2], s);
    assert q[0] / q[2] == p[0] / p[2];
    assert q[1] / q[2] == p[1] / p[2];
    assert ImagePoint(q, f)[0] == ImagePoint(p, f)[0];
    assert ImagePoint(q, f)[1] == ImagePoint(p, f)[1];
  }

  /** Points on the same ray through the projection centre share an image point: scaling image space changes nothing. */
  lemma Isp2ImgOnRay(isp: Matrix, inn: Interior, s: real)
    requires Valid(isp) && isp.cols >= 3 && s != 0.0
    ensures Isp2Img(Times(isp, s), inn) == Isp2Img(isp, inn)
  {
    var scaled := Times(isp, s);
    assert NonZeroDepths(scaled) <==> NonZeroDepths(isp) by {
      forall i | 0 <= i < isp.rows
        ensures scaled.data[i][2] != 0.0 <==> isp.data[i][2] != 0.0
      {
        assert scaled.data[i][2] == isp.data[i][2] * s;
      }
    }
    if NonZeroDepths(isp) {
      forall i | 0 <= i < isp.rows
        ensures ImagePoint(scaled.data[i], inn.f) == ImagePoint(isp.data[i], inn.f)
      {
        ScaledImagePoint(isp.data[i], scaled.data[i], inn.f, s);
      }
      assert Isp2Img(scaled, inn).value.data == Isp2Img(isp, inn).value.data;
    }
  }

  /** obj2aux: object points relative to the projection centre. */
  function Obj2Aux(obj: Matrix, ex: Exterior): (r: Result<Matrix>)
    requires Valid(obj)
    ensures r.Err? <==> !IsValidCoordinate(obj)
    ensures r.Ok? ==> IsShape(r.value, obj.rows, 3)
  {
    Translate(obj, ex.x, ex.y, ex.z)
  }

  /** aux2isp: auxiliary coordinates rotated into image space, p · R. */
  function Aux2Isp(aux: Matrix, rot: Matrix): (r: Result<Matrix>)
    requires Valid(aux) && Valid(rot)
    ensures r.Err? <==> !IsValidCoordinate(aux) || !IsValidRotationMatrix(rot)
    ensures r.Ok? ==> IsShape(r.value, aux.rows, 3)
  {
    RotateForward(aux, rot)
  }

  /** isp2aux: image-space coordinates rotated back, p · Rᵀ. */
  function Isp2Aux(isp: Matrix, rot: Matrix): (r: Result<Matrix>)
    requires Valid(isp) && Valid(rot)
    ensures r.Err? <==> !IsValidCoordinate(isp) || !IsValidRotationMatrix(rot)
    ensures r.Ok? ==> IsShape(r.value, isp.rows, 3)
  {
    RotateInverse(isp, rot)
  }

  /** obj2img: object points through the whole chain to image coordinates. */
  function Obj2Img(obj: Matrix, ex: Exterior, inn: Interior, rot: Matrix): (r: Result<Matrix>)
    requires Valid(obj) && Valid(rot)
    ensures !IsValidCoordinate(obj) || !IsValidRotationMatrix(rot) ==> r == Err(MatrixShapeError)
    ensures r.Ok? ==> IsShape(r.value, obj.rows, 2)
  {
    match Obj2Aux(obj, ex)
    case Err(e) => Err(e)
    case Ok(aux) =>
      match Aux2Isp(aux, rot)
      case Err(e) => Err(e)
      case Ok(isp) => Isp2Img(isp, inn)
  }

  /** Moving the object points and the projection centre by the same offset leaves the image unchanged. */
  lemma Obj2ImgMovedTogether(obj: Matrix, ex: Exterior, inn: Interior, rot: Matrix, dx: real, dy: real, dz: real)
    requires Valid(obj) && IsValidCoordinate(obj) && Valid(rot)
    ensures var moved := Translate(obj, -dx, -dy, -dz).value;
      Obj2Img(moved, ex.(x := ex.x + dx, y := ex.y + dy, z := ex.z + dz), inn, rot) == Obj2Img(obj, ex, inn, rot)
  {
    var moved := Translate(obj, -dx, -dy, -dz).value;
    var ex' := ex.(x := ex.x + dx, y := ex.y + dy, z := ex.z + dz);
    assert Obj2Aux(moved, ex') == Obj2Aux(obj, ex) by {
      var a := Obj2Aux(moved, ex').value;
      var b := Obj2Aux(obj, ex).value;
      forall i | 0 <= i < obj.rows
        ensures a.data[i] == b.data[i]
      {
      }
      assert a.data == b.data;
    }
  }

  /** aux2obj as written: translates by the projection centre exactly as obj2aux does, so it subtracts it a second time. */
  function Aux2ObjAsWritten(aux: Matrix, ex: Exterior): (r: Result<Matrix>)
    requires Valid(aux)
    ensures r.Err? <==> !IsValidCoordinate(aux)
    ensures r.Ok? ==> IsShape(r.value, aux.rows, 3) &&
                      forall i :: 0 <= i < aux.rows ==>
                        r.value.data[i] == [aux.data[i][0] - ex.x, aux.data[i][1] - ex.y, aux.data[i][2] - ex.z]
  {
    Translate(aux, ex.x, ex.y, ex.z)
  }

  /** Going to auxiliary coordinates and back as written moves every point by twice the negated projection centre. */
  lemma Aux2ObjAsWrittenMovesPoints(obj: Matrix, ex: Exterior)
    requires Valid(obj) && IsValidCoordinate(obj)
    ensures var back := Aux2ObjAsWritten(Obj2Aux(obj, ex).value, ex).value;
      forall i :: 0 <= i < obj.rows ==>
        back.data[i] == [obj.data[i][0] - 2.0 * ex.x, obj.data[i][1] - 2.0 * ex.y, obj.data[i][2] - 2.0 * ex.z]
    ensures obj.rows > 0 && ex.x != 0.0 ==> Aux2ObjAsWritten(Obj2Aux(obj, ex).value, ex) != Ok(obj)
  {
    var back := Aux2ObjAsWritten(Obj2Aux(obj, ex).value, ex).value;
    if obj.rows > 0 && ex.x != 0.0 {
      assert back.data[0][0] != obj.data[0][0];
    }
  }

  /** aux2obj as intended: add the projection centre back. */
  function Aux2Obj(aux: Matrix, ex: Exterior): (r: Result<Matrix>)
    requires Valid(aux)
    ensures r.Err? <==> !IsValidCoordinate(aux)
  {
    Translate(aux, -ex.x, -ex.y, -ex.z)
  }

  /** The intended aux2obj undoes obj2aux. */
  lemma Aux2ObjRoundTrip(obj: Matrix, ex: Exterior)
    requires Valid(obj) && IsValidCoordinate(obj)
    ensures Aux2Obj(Obj2Aux(obj, ex).value, ex) == Ok(obj)
  {
    TranslateRoundTrip(obj, ex.x, ex.y, ex.z);
  }
}

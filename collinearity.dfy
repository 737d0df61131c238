/**
 * The collinearity condition equations of Photogrammetry.cpp linearised for one point: the
 * coefficient record, its 2 x 6 and 2 x 9 matrix forms, and the three linearisations
 * (all angles zero, kappa only, rigorous from the rotation matrix). sin and cos are
 * parameters.
 */
module Collinearity {
  import opened Wrappers
  import opened Linalg

  /** Collinearity_Condition_Equation_Coefficient: the two rows of partial derivatives for one point. */
  datatype Cce = Cce(
    a11: real, a12: real, a13: real, a14: real, a15: real, a16: real,
    a21: real, a22: real, a23: real, a24: real, a25: real, a26: real)

  /** The x-equation row: derivatives by Xs, Ys, Zs, phi, omega, kappa. */
  function Row1(c: Cce): seq<real>
  {
    [c.a11, c.a12, c.a13, c.a14, c.a15, c.a16]
  }

  /** The y-equation row. */
  function Row2(c: Cce): seq<real>
  {
    [c.a21, c.a22, c.a23, c.a24, c.a25, c.a26]
  }

  /** toMatrix26: the two rows as a 2 x 6 matrix. */
  function ToMatrix26(c: Cce): (m: Matrix)
    ensures IsShape(m, 2, 6)
  {
    Matrix(2, 6, [Row1(c), Row2(c)])
  }

  /**
   * toMatrix29: the 2 x 9 matrix whose first six columns are toMatrix26 and whose last three
   * are the negated first three: the derivatives by the object point's own coordinates.
   */
  function ToMatrix29(c: Cce): (m: Matrix)
    ensures IsShape(m, 2, 9)
    ensures forall i, j :: 0 <= i < 2 && 0 <= j < 6 ==> m.data[i][j] == ToMatrix26(c).data[i][j]
    ensures forall i, j :: 0 <= i < 2 && 0 <= j < 3 ==> m.data[i][6 + j] == -m.data[i][j]
  {
    Matrix(2, 9, [Row1(c) + [-c.a11, -c.a12, -c.a13], Row2(c) + [-c.a21, -c.a22, -c.a23]])
  }

  /** Collinearity_Condition_Equation_Linearization_Param: the point's image and image-space coordinates and the pose. */
  datatype CceParam = CceParam(x: real, y: real, z: real, f: real, h: real, kappa: real, omega: real, rotate: Matrix)

  /** sin and cos. */
  datatype Trig = Trig(sin: real -> real, cos: real -> real)

  /** sin 0 = 0 and cos 0 = 1. */
  predicate ExactAtZero(t: Trig)
  {
    t.sin(0.0) == 0.0 && t.cos(0.0) == 1.0
  }

  /** cceSimplifyAll: the vertical-photograph approximation (all three angles taken as zero); non-finite when f or H is zero. */
  function CceSimplifyAll(p: CceParam): (r: Option<Cce>)
    ensures r.None? <==> p.f == 0.0 || p.h == 0.0
  {
    if p.f == 0.0 || p.h == 0.0 then None
    else
      var xx := p.f + p.x * p.x / p.f;
      var yy := p.f + p.y * p.y / p.f;
      var xy := p.x * p.y / p.f;
      Some(Cce(-p.f / p.h, 0.0, -p.x / p.h, -xx, -xy, p.y,
               0.0, -p.f / p.h, -p.y / p.h, -xy, -yy, -p.x))
  }

  /** cceKappaOnly: the approximation that keeps kappa and takes phi and omega as zero. */
  function CceKappaOnly(p: CceParam, t: Trig): (r: Option<Cce>)
    ensures r.None? <==> p.f == 0.0 || p.h == 0.0
  {
    if p.f == 0.0 || p.h == 0.0 then None
    else
      var xx := p.f + p.x * p.x / p.f;
      var yy := p.f + p.y * p.y / p.f;
      var xy := p.x * p.y / p.f;
      var cosk := t.cos(p.kappa);
      var sink := t.sin(p.kappa);
      Some(Cce(-p.f / p.h * cosk, -p.f / p.h * sink, -p.x / p.h,
               -xx * cosk + xy * sink, -xy * cosk - xx * sink, p.y,
               p.f / p.h * sink, -p.f / p.h * cosk, -p.y / p.h,
               -xy * cosk + yy * sink, -yy * cosk - xy * sink, -p.x))
  }

  /** cceSimplifyNone: the rigorous coefficients from the rotation matrix; non-finite when f or Z is zero. */
  function CceSimplifyNone(p: CceParam, t: Trig): (r: Option<Cce>)
    requires IsShape(p.rotate, 3, 3)
    ensures r.None? <==> p.f == 0.0 || p.z == 0.0
  {
    if p.f == 0.0 || p.z == 0.0 then None
    else
      var cosk := t.cos(p.kappa);
      var sink := t.sin(p.kappa);
      var cosw := t.cos(p.omega);
      var sinw := t.sin(p.omega);
      var a := p.rotate.data[0];
      var b := p.rotate.data[1];
      var c := p.rotate.data[2];
      var x := p.x;
      var y := p.y;
      var f := p.f;
      Some(Cce(1.0 / p.z * (a[0] * f + a[2] * x),
               1.0 / p.z * (b[0] * f + b[2] * x),
               1.0 / p.z * (c[0] * f + c[2] * x),
               y * sinw - (x / f * (x * cosk - y * sink) + f * cosk) * cosw,
               -f * sink - x / f * (x * sink + y * cosk),
               y,
               1.0 / p.z * (a[1] * f + a[2] * y),
               1.0 / p.z * (b[1] * f + b[2] * y),
               1.0 / p.z * (c[1] * f + c[2] * y),
               -x * sinw - (y / f * (x * cosk - y * sink) - f * sink) * cosw,
               -f * cosk - y / f * (x * sink + y * cosk),
               -x))
  }

  /** With kappa = 0 the kappa-only coefficients are exactly the all-simplified ones. */
  lemma KappaOnlyAtZero(p: CceParam, t: Trig)
    requires p.kappa == 0.0 && ExactAtZero(t)
    ensures CceKappaOnly(p, t) == CceSimplifyAll(p)
  {
  }

  /**
   * For a vertical photograph (identity rotation, omega = kappa = 0) of a point at depth
   * Z = -H, the rigorous coefficients are exactly the all-simplified ones.
   */
  lemma SimplifyNoneWhenVertical(p: CceParam, t: Trig)
    requires p.rotate == IdentityLike(3, 3) && p.kappa == 0.0 && p.omega == 0.0 && ExactAtZero(t)
    requires p.z == -p.h
    ensures CceSimplifyNone(p, t) == CceSimplifyAll(p)
  {
    if p.f != 0.0 && p.h != 0.0 {
      VerticalDistanceRows(p, t);
      VerticalAngleRows(p, t);
      var n, m := CceSimplifyNone(p, t).value, CceSimplifyAll(p).value;
      assert n == Cce(m.a11, m.a12, m.a13, m.a14, m.a15, m.a16, m.a21, m.a22, m.a23, m.a24, m.a25, m.a26);
    }
  }

  lemma VerticalDistanceRows(p: CceParam, t: Trig)
    requires p.rotate == IdentityLike(3, 3) && p.z == -p.h && p.f != 0.0 && p.h != 0.0
    ensures var n, m := CceSimplifyNone(p, t).value, CceSimplifyAll(p).value;
      n.a11 == m.a11 && n.a12 == m.a12 && n.a13 == m.a13 && n.a21 == m.a21 && n.a22 == m.a22 && n.a23 == m.a23
  {
    IdentityRows();
    var a, b, c := p.rotate.data[0], p.rotate.data[1], p.rotate.data[2];
    VerticalDistanceTerm(p.z, p.h, a[0], a[2], p.f, p.x);
    VerticalDistanceTerm(p.z, p.h, b[0], b[2], p.f, p.x);
    VerticalDistanceTerm(p.z, p.h, c[0], c[2], p.f, p.x);
    VerticalDistanceTerm(p.z, p.h, a[1], a[2], p.f, p.y);
    VerticalDistanceTerm(p.z, p.h, b[1], b[2], p.f, p.y);
    VerticalDistanceTerm(p.z, p.h, c[1], c[2], p.f, p.y);
  }

  lemma VerticalAngleRows(p: CceParam, t: Trig)
    requires IsShape(p.rotate, 3, 3) && p.kappa == 0.0 && p.omega == 0.0 && ExactAtZero(t)
    requires p.z != 0.0 && p.f != 0.0 && p.h != 0.0
    ensures var n, m := CceSimplifyNone(p, t).value, CceSimplifyAll(p).value;
      n.a14 == m.a14 && n.a15 == m.a15 && n.a16 == m.a16 && n.a24 == m.a24 && n.a25 == m.a25 && n.a26 == m.a26
  {
    VerticalXSquareTerm(p, t);
    VerticalYSquareTerm(p, t);
    VerticalCrossTerms(p, t);
  }

  lemma VerticalXSquareTerm(p: CceParam, t: Trig)
    requires IsShape(p.rotate, 3, 3) && p.kappa == 0.0 && p.omega == 0.0 && ExactAtZero(t)
    requires p.z != 0.0 && p.f != 0.0 && p.h != 0.0
    ensures CceSimplifyNone(p, t).value.a14 == CceSimplifyAll(p).value.a14
  {
    var cosk, sink, cosw, sinw := t.cos(p.kappa), t.sin(p.kappa), t.cos(p.omega), t.sin(p.omega);
    assert cosk == 1.0 && sink == 0.0 && cosw == 1.0 && sinw == 0.0;
    XSquare(CceSimplifyNone(p, t).value.a14, CceSimplifyAll(p).value.a14, p.x, p.y, p.f, cosk, sink, cosw, sinw);
  }

  lemma XSquare(rigorous: real, simplified: real, x: real, y: real, f: real, cosk: real, sink: real, cosw: real, sinw: real)
    requires f != 0.0 && cosk == 1.0 && sink == 0.0 && cosw == 1.0 && sinw == 0.0
    requires rigorous == y * sinw - (x / f * (x * cosk - y * sink) + f * cosk) * cosw
    requires simplified == -(f + x * x / f)
    ensures rigorous == simplified
  {
    DivMulSwap(x, x, f);
  }

  lemma YSquare(rigorous: real, simplified: real, x: real, y: real, f: real, cosk: real, sink: real)
    requires f != 0.0 && cosk == 1.0 && sink == 0.0
    requires rigorous == -f * cosk - y / f * (x * sink + y * cosk)
    requires simplified == -(f + y * y / f)
    ensures rigorous == simplified
  {
    DivMulSwap(y, y, f);
  }

  lemma VerticalYSquareTerm(p: CceParam, t: Trig)
    requires IsShape(p.rotate, 3, 3) && p.kappa == 0.0 && p.omega == 0.0 && ExactAtZero(t)
    requires p.z != 0.0 && p.f != 0.0 && p.h != 0.0
    ensures CceSimplifyNone(p, t).value.a25 == CceSimplifyAll(p).value.a25
  {
    var cosk, sink := t.cos(p.kappa), t.sin(p.kappa);
    assert cosk == 1.0 && sink == 0.0;
    YSquare(CceSimplifyNone(p, t).value.a25, CceSimplifyAll(p).value.a25, p.x, p.y, p.f, cosk, sink);
  }

  lemma VerticalCrossTerms(p: CceParam, t: Trig)
    requires IsShape(p.rotate, 3, 3) && p.kappa == 0.0 && p.omega == 0.0 && ExactAtZero(t)
    requires p.z != 0.0 && p.f != 0.0 && p.h != 0.0
    ensures var n, m := CceSimplifyNone(p, t).value, CceSimplifyAll(p).value;
      n.a15 == m.a15 && n.a16 == m.a16 && n.a24 == m.a24 && n.a26 == m.a26
  {
    var cosk, sink, cosw, sinw := t.cos(p.kappa), t.sin(p.kappa), t.cos(p.omega), t.sin(p.omega);
    assert cosk == 1.0 && sink == 0.0 && cosw == 1.0 && sinw == 0.0;
    VerticalAngleTerms(p.x, p.y, p.f, cosk, sink, cosw, sinw);
  }

  lemma IdentityRows()
    ensures IdentityLike(3, 3).data == [[1.0, 0.0, 0.0], [0.0, 1.0, 0.0], [0.0, 0.0, 1.0]]
  {
    var e := IdentityLike(3, 3);
    assert e.data[0] == [1.0, 0.0, 0.0];
    assert e.data[1] == [0.0, 1.0, 0.0];
    assert e.data[2] == [0.0, 0.0, 1.0];
  }

  /** A distance coefficient (1/Z)(r·f + s·x) with the rotation entries r, s taken from the identity and Z = -H. */
  lemma VerticalDistanceTerm(z: real, h: real, r: real, s: real, f: real, x: real)
    requires h != 0.0 && z == -h && (r, s) in {(1.0, 0.0), (0.0, 0.0), (0.0, 1.0)}
    ensures 1.0 / z * (r * f + s * x) == if r == 1.0 then -f / h else if s == 1.0 then -x / h else 0.0
  {
  }

  /** The cross angle coefficients of the rigorous form with cos 0 = 1 and sin 0 = 0 substituted. */
  lemma VerticalAngleTerms(x: real, y: real, f: real, cosk: real, sink: real, cosw: real, sinw: real)
    requires f != 0.0 && cosk == 1.0 && sink == 0.0 && cosw == 1.0 && sinw == 0.0
    ensures -f * sink - x / f * (x * sink + y * cosk) == -(x * y / f)
    ensures -x * sinw - (y / f * (x * cosk - y * sink) - f * sink) * cosw == -(x * y / f)
  {
    DivMulSwap(x, y, f);
    DivMulSwap(y, x, f);
  }

  lemma DivMulSwap(a: real, b: real, f: real)
    requires f != 0.0
    ensures a / f * b == a * b / f
  {
  }

  /** The linearisation a solver is asked to use (the coefficient-solver argument). */
  datatype CceVariant = SimplifyAll | KappaOnly | SimplifyNone

  /** The coefficients of the chosen linearisation. */
  function CceOf(v: CceVariant, p: CceParam, t: Trig): (r: Option<Cce>)
    requires IsShape(p.rotate, 3, 3)
    ensures v != SimplifyNone ==> (r.None? <==> p.f == 0.0 || p.h == 0.0)
    ensures v == SimplifyNone ==> (r.None? <==> p.f == 0.0 || p.z == 0.0)
  {
    match v
    case SimplifyAll => CceSimplifyAll(p)
    case KappaOnly => CceKappaOnly(p, t)
    case SimplifyNone => CceSimplifyNone(p, t)
  }
}

/**
 * spaceIntersection: object points from two or more oriented photographs. The closed form
 * intersects the two rays of each point from a photo pair; the iterative form refines every
 * point by least squares over all photographs, starting from the closed form of the first two.
 */
module Intersection {
  import opened Wrappers
  import opened Reals
  import opened Linalg
  import opened Photogrammetry
  import opened Collinearity
  import opened Resection

  /** Image_Meta_Data: the interior and exterior orientation of one photograph. */
  datatype Meta = Meta(interior: Interior, exterior: Exterior)

  /** Space_Intersection_Ols_Block: one photograph's orientation and its image points. */
  datatype Block = Block(meta: Meta, image: Matrix)

  /** Every photograph images the same n points, one (x, y) row each. */
  predicate SamePoints(blocks: seq<Block>, n: nat)
  {
    forall i :: 0 <= i < |blocks| ==> IsShape(blocks[i].image, n, 2)
  }

  // ---------------------------------------------------------------------------
  // Closed form (two photographs)

  /** A point or direction in object space. */
  datatype Vec3 = Vec3(x: real, y: real, z: real)

  function Plus(p: Vec3, q: Vec3): Vec3
  {
    Vec3(p.x + q.x, p.y + q.y, p.z + q.z)
  }

  function Scaled(k: real, p: Vec3): Vec3
  {
    Vec3(k * p.x, k * p.y, k * p.z)
  }

  /** X1·Z2 − Z1·X2: zero when the two rays are parallel in the XZ plane. */
  function Det(a1: Vec3, a2: Vec3): real
  {
    a1.x * a2.z - a1.z * a2.x
  }

  /** The projection coefficients N1 and N2 of the left and right ray, by Cramer's rule on the base components BX and BZ. */
  function Scales(s1: Vec3, a1: Vec3, s2: Vec3, a2: Vec3): (real, real)
    requires Det(a1, a2) != 0.0
  {
    var bx := s2.x - s1.x;
    var bz := s2.z - s1.z;
    ((bx * a2.z - bz * a2.x) / Det(a1, a2), (bx * a1.z - bz * a1.x) / Det(a1, a2))
  }

  /**
   * The closed-form intersection of one point: X and Z from the right ray, Y the mean of the
   * two rays' Y. Parallel rays make the division non-finite.
   */
  function IntersectRays(s1: Vec3, a1: Vec3, s2: Vec3, a2: Vec3): (r: Option<Vec3>)
    ensures r.None? <==> Det(a1, a2) == 0.0
  {
    if Det(a1, a2) == 0.0 then None
    else
      var (n1, n2) := Scales(s1, a1, s2, a2);
      var bx := s2.x - s1.x;
      var bY := s2.y - s1.y;
      var bz := s2.z - s1.z;
      Some(Vec3(s1.x + bx + n2 * a2.x, s1.y + (n1 * a1.y + n2 * a2.y + bY) / 2.0, s1.z + bz + n2 * a2.z))
  }

  /**
   * The computed point lies on both rays in X and Z (S1 + N1·a1 and S2 + N2·a2 agree there),
   * and its Y is the mean of the two rays' Y.
   */
  lemma IntersectRaysOnBothRays(s1: Vec3, a1: Vec3, s2: Vec3, a2: Vec3)
    requires Det(a1, a2) != 0.0
    ensures var p := IntersectRays(s1, a1, s2, a2).value;
            var (n1, n2) := Scales(s1, a1, s2, a2);
            var left := Plus(s1, Scaled(n1, a1));
            var right := Plus(s2, Scaled(n2, a2));
            p.x == left.x == right.x && p.z == left.z == right.z && p.y == (left.y + right.y) / 2.0
  {
    var (n1, n2) := Scales(s1, a1, s2, a2);
    CramerX(s2.x - s1.x, s2.z - s1.z, a1, a2);
  }

  /** N1·X1 − N2·X2 = BX and N1·Z1 − N2·Z2 = BZ. */
  lemma CramerX(bx: real, bz: real, a1: Vec3, a2: Vec3)
    requires Det(a1, a2) != 0.0
    ensures var d := Det(a1, a2);
            var n1 := (bx * a2.z - bz * a2.x) / d;
            var n2 := (bx * a1.z - bz * a1.x) / d;
            n1 * a1.x - n2 * a2.x == bx && n1 * a1.z - n2 * a2.z == bz
  {
    var d := Det(a1, a2);
    var n1 := (bx * a2.z - bz * a2.x) / d;
    var n2 := (bx * a1.z - bz * a1.x) / d;
    assert n1 * d == bx * a2.z - bz * a2.x;
    assert n2 * d == bx * a1.z - bz * a1.x;
    assert (n1 * a1.x - n2 * a2.x) * d == bx * d by {
      assert (n1 * a1.x - n2 * a2.x) * d == (n1 * d) * a1.x - (n2 * d) * a2.x;
    }
    assert (n1 * a1.z - n2 * a2.z) * d == bz * d by {
      assert (n1 * a1.z - n2 * a2.z) * d == (n1 * d) * a1.z - (n2 * d) * a2.z;
    }
    CancelFactor(n1 * a1.x - n2 * a2.x, bx, d);
    CancelFactor(n1 * a1.z - n2 * a2.z, bz, d);
  }

  lemma CancelFactor(u: real, v: real, d: real)
    requires d != 0.0 && u * d == v * d
    ensures u == v
  {
    assert (u - v) * d == 0.0;
  }

  /**
   * When the two rays do meet at p (p = S1 + λ1·a1 = S2 + λ2·a2) and are not parallel in XZ,
   * the closed form returns exactly p.
   */
  lemma IntersectRaysExact(s1: Vec3, a1: Vec3, s2: Vec3, a2: Vec3, l1: real, l2: real)
    requires Det(a1, a2) != 0.0
    requires Plus(s1, Scaled(l1, a1)) == Plus(s2, Scaled(l2, a2))
    ensures IntersectRays(s1, a1, s2, a2) == Some(Plus(s1, Scaled(l1, a1)))
  {
    var p := Plus(s1, Scaled(l1, a1));
    var q := Plus(s2, Scaled(l2, a2));
    assert p.x == q.x && p.y == q.y && p.z == q.z;
    var (n1, n2) := Scales(s1, a1, s2, a2);
    UniqueScales(s2.x - s1.x, s2.z - s1.z, a1, a2, l1, l2);
    assert n1 == l1 && n2 == l2;
    var r := IntersectRays(s1, a1, s2, a2).value;
    assert r.x == p.x;
    var sy := l1 * a1.y + l2 * a2.y + (s2.y - s1.y);
    assert r.y == s1.y + sy / 2.0;
    assert sy == p.y + q.y - 2.0 * s1.y;
    assert r.y == p.y;
    assert r.z == p.z;
  }

  /** Two non-parallel rays determine their scales: Cramer's rule is the only solution. */
  lemma UniqueScales(bx: real, bz: real, a1: Vec3, a2: Vec3, l1: real, l2: real)
    requires Det(a1, a2) != 0.0
    requires l1 * a1.x - l2 * a2.x == bx && l1 * a1.z - l2 * a2.z == bz
    ensures l1 == (bx * a2.z - bz * a2.x) / Det(a1, a2)
    ensures l2 == (bx * a1.z - bz * a1.x) / Det(a1, a2)
  {
    var d := Det(a1, a2);
    assert bx * a2.z - bz * a2.x == l1 * d by {
      assert bx * a2.z - bz * a2.x == (l1 * a1.x - l2 * a2.x) * a2.z - (l1 * a1.z - l2 * a2.z) * a2.x;
    }
    assert bx * a1.z - bz * a1.x == l2 * d by {
      assert bx * a1.z - bz * a1.x == (l1 * a1.x - l2 * a2.x) * a1.z - (l1 * a1.z - l2 * a2.z) * a1.x;
    }
    DivBack(l1, d);
    DivBack(l2, d);
  }

  lemma DivBack(l: real, d: real)
    requires d != 0.0
    ensures l == (l * d) / d
  {
  }

  /** The image points of one photograph carried into image space: (x, y, −f). */
  function ImageSpace(img: Matrix, f: real): (isp: Matrix)
    requires Valid(img) && img.cols == 2
    ensures IsShape(isp, img.rows, 3)
    ensures forall i :: 0 <= i < img.rows ==> isp.data[i] == [img.data[i][0], img.data[i][1], -f]
  {
    Matrix(img.rows, 3, seq(img.rows, i requires 0 <= i < img.rows => [img.data[i][0], img.data[i][1], -f]))
  }

  /** The projection centre of a pose. */
  function Centre(ex: Exterior): Vec3
  {
    Vec3(ex.x, ex.y, ex.z)
  }

  /** Row i of a three-column matrix as a vector. */
  function RowOf(m: Matrix, i: nat): Vec3
    requires Valid(m) && m.cols == 3 && i < m.rows
  {
    Vec3(m.data[i][0], m.data[i][1], m.data[i][2])
  }

  /** The auxiliary directions of the rays of one photograph: isp2aux of its image-space points. */
  function Directions(b: Block, s: Solvers): (aux: Matrix)
    requires Valid(b.image) && b.image.cols == 2 && WellShaped(s)
    ensures IsShape(aux, b.image.rows, 3)
  {
    Isp2Aux(ImageSpace(b.image, b.meta.interior.f), s.rotation(b.meta.exterior)).value
  }

  /** The two rays of point i meet in a single point: they are not parallel in XZ. */
  predicate Meets(left: Block, right: Block, s: Solvers, i: nat)
    requires Valid(left.image) && left.image.cols == 2 && Valid(right.image) && right.image.cols == 2
    requires i < left.image.rows && i < right.image.rows && WellShaped(s)
  {
    Det(RowOf(Directions(left, s), i), RowOf(Directions(right, s), i)) != 0.0
  }

  /** The closed-form intersections of corresponding rows of two direction matrices. */
  function PairRays(c1: Vec3, aux1: Matrix, c2: Vec3, aux2: Matrix): (r: Result<Matrix>)
    requires Valid(aux1) && aux1.cols == 3 && IsShape(aux2, aux1.rows, 3)
    ensures r.Err? <==> exists i :: 0 <= i < aux1.rows && Det(RowOf(aux1, i), RowOf(aux2, i)) == 0.0
    ensures r.Err? ==> r.error == NonFinite
    ensures r.Ok? ==> IsShape(r.value, aux1.rows, 3)
    ensures r.Ok? ==> forall i :: 0 <= i < aux1.rows ==>
              Some(RowOf(r.value, i)) == IntersectRays(c1, RowOf(aux1, i), c2, RowOf(aux2, i))
  {
    var n := aux1.rows;
    if exists i :: 0 <= i < n && Det(RowOf(aux1, i), RowOf(aux2, i)) == 0.0 then Err(NonFinite)
    else
      var pts := seq(n, i requires 0 <= i < n => IntersectRays(c1, RowOf(aux1, i), c2, RowOf(aux2, i)).value);
      Ok(Matrix(n, 3, seq(n, i requires 0 <= i < n => [pts[i].x, pts[i].y, pts[i].z])))
  }

  /**
   * spaceIntersection of two photographs: one object point per image-point pair, each the
   * closed-form intersection of its two rays; non-finite when a pair of rays is parallel in XZ.
   */
  function ClosedForm(left: Block, right: Block, s: Solvers): (r: Result<Matrix>)
    requires Valid(left.image) && left.image.cols == 2 && IsShape(right.image, left.image.rows, 2) && WellShaped(s)
    ensures r.Err? <==> exists i :: 0 <= i < left.image.rows && !Meets(left, right, s, i)
    ensures r.Err? ==> r.error == NonFinite
    ensures r.Ok? ==> IsShape(r.value, left.image.rows, 3)
    ensures r.Ok? ==> forall i :: 0 <= i < left.image.rows ==>
              Some(RowOf(r.value, i)) ==
              IntersectRays(Centre(left.meta.exterior), RowOf(Directions(left, s), i),
                            Centre(right.meta.exterior), RowOf(Directions(right, s), i))
  {
    var auxL := Directions(left, s);
    var auxR := Directions(right, s);
    assert forall i :: 0 <= i < left.image.rows ==>
             (Meets(left, right, s, i) <==> Det(RowOf(auxL, i), RowOf(auxR, i)) != 0.0);
    PairRays(Centre(left.meta.exterior), auxL, Centre(right.meta.exterior), auxR)
  }

  // ---------------------------------------------------------------------------
  // Iterative refinement (two or more photographs)

  /** The photographs of an intersection: (x, y) image rows, as many in each as in the first. */
  predicate Observations(blocks: seq<Block>)
  {
    forall i :: 0 <= i < |blocks| ==>
      Valid(blocks[i].image) && blocks[i].image.cols == 2 && blocks[i].image.rows == blocks[0].image.rows
  }

  /**
   * Which row the equations of photograph i read for the point being corrected: the point's
   * own row, or photograph i's index, as the loop over photographs is written.
   */
  datatype RowPick = PointRow | BlockIndex

  function Pick(pick: RowPick, row: nat, i: nat): nat
  {
    match pick
    case PointRow => row
    case BlockIndex => i
  }

  /** Row i of a matrix as a one-row matrix. */
  function RowMatrix(m: Matrix, i: nat): (r: Matrix)
    requires Valid(m) && i < m.rows
    ensures IsShape(r, 1, m.cols) && r.data[0] == m.data[i]
  {
    Matrix(1, m.cols, [m.data[i]])
  }

  /** The observation equations of one photograph for one point: 2 x 3 coefficients and a 2 x 1 residual. */
  datatype Equations = Equations(coefficient: Matrix, residual: Matrix)

  predicate EquationsShaped(e: Equations, k: nat)
  {
    IsShape(e.coefficient, 2 * k, 3) && IsShape(e.residual, 2 * k, 1)
  }

  /**
   * −toMatrix26().leftCols(3): the derivatives of the image coordinates by the object point's
   * own coordinates, which are the last three columns of toMatrix29.
   */
  function ObjectColumns(c: Cce): (m: Matrix)
    ensures IsShape(m, 2, 3)
    ensures forall i, j :: 0 <= i < 2 && 0 <= j < 3 ==> m.data[i][j] == ToMatrix29(c).data[i][6 + j]
  {
    var a := ToMatrix26(c);
    Matrix(2, 3, [[-a.data[0][0], -a.data[0][1], -a.data[0][2]], [-a.data[1][0], -a.data[1][1], -a.data[1][2]]])
  }

  /**
   * The equations of one point seen in one photograph: the point projected into the photograph,
   * its image residual interleaved, and its linearisation by the object coordinates. A point on
   * the image plane (Z = 0) or a non-finite linearisation makes them non-finite.
   */
  function BlockEquations(meta: Meta, obj: Matrix, img: Matrix, s: Solvers): (r: Result<Equations>)
    requires IsShape(obj, 1, 3) && IsShape(img, 1, 2) && WellShaped(s)
    ensures r.Err? ==> r.error == NonFinite
    ensures r.Ok? ==> EquationsShaped(r.value, 1)
    ensures r.Ok? ==> exists c :: r.value.coefficient == ObjectColumns(c)
  {
    var rotate := s.rotation(meta.exterior);
    var isp := ProjectPoints(obj, meta.exterior, rotate);
    match Isp2Img(isp, meta.interior)
    case Err(e) => Err(e)
    case Ok(imgCalc) =>
      var residual := Interleave(Sub(img, imgCalc));
      match s.cce(PointParams(meta.interior, meta.exterior, rotate, imgCalc, isp)[0])
      case None => Err(NonFinite)
      case Some(c) => Ok(Equations(ObjectColumns(c), residual))
  }

  /**
   * The equations photograph i contributes to the correction of point `row`: from the picked
   * row of its image and of the current coordinates; a picked row past either is out of range.
   */
  function BlockOf(pick: RowPick, blocks: seq<Block>, coordinate: Matrix, row: nat, i: nat, s: Solvers): (r: Result<Equations>)
    requires Observations(blocks) && i < |blocks| && Valid(coordinate) && coordinate.cols == 3 && WellShaped(s)
    ensures r.Err? ==> r.error == NonFinite || r.error == OutOfRange
    ensures r == Err(OutOfRange) <==> Pick(pick, row, i) >= blocks[i].image.rows || Pick(pick, row, i) >= coordinate.rows
    ensures r.Ok? ==> EquationsShaped(r.value, 1)
  {
    var idx := Pick(pick, row, i);
    if idx >= blocks[i].image.rows || idx >= coordinate.rows then Err(OutOfRange)
    else BlockEquations(blocks[i].meta, RowMatrix(coordinate, idx), RowMatrix(blocks[i].image, idx), s)
  }

  /** Every finite block of the first k is 2 x 3 and 2 x 1. */
  ghost predicate BlocksShaped(block: nat -> Result<Equations>, k: nat)
  {
    forall i :: 0 <= i < k && block(i).Ok? ==> EquationsShaped(block(i).value, 1)
  }

  /** The blocks of the photographs for one point, in photograph order. */
  function SystemOf(pick: RowPick, blocks: seq<Block>, coordinate: Matrix, row: nat, s: Solvers)
    : (block: nat -> Result<Equations>)
    requires Observations(blocks) && Valid(coordinate) && coordinate.cols == 3 && WellShaped(s)
    ensures BlocksShaped(block, |blocks|)
    ensures Builds(block, pick, blocks, coordinate, row, s)
  {
    (i: nat) => if i < |blocks| then BlockOf(pick, blocks, coordinate, row, i, s) else Err(OutOfRange)
  }

  /** block is BlockOf for this point (instantiated only where a BlockOf term is at hand). */
  ghost predicate Builds(block: nat -> Result<Equations>, pick: RowPick, blocks: seq<Block>, coordinate: Matrix, row: nat, s: Solvers)
    requires Observations(blocks) && Valid(coordinate) && coordinate.cols == 3 && WellShaped(s)
  {
    forall i: nat {:trigger BlockOf(pick, blocks, coordinate, row, i, s)} :: i < |blocks| ==>
      block(i) == BlockOf(pick, blocks, coordinate, row, i, s)
  }

  /**
   * The first k blocks stacked: block i in rows 2i and 2i + 1 of the 2k x 3 coefficients and
   * the 2k x 1 residual; the first non-finite or out-of-range block stops the stacking.
   */
  function Stack(block: nat -> Result<Equations>, k: nat): (r: Result<Equations>)
    requires BlocksShaped(block, k)
    ensures r.Ok? <==> forall i :: 0 <= i < k ==> block(i).Ok?
    ensures r.Ok? ==> EquationsShaped(r.value, k)
    ensures r.Ok? ==> forall i :: 0 <= i < k ==>
              r.value.coefficient.data[2 * i] == block(i).value.coefficient.data[0] &&
              r.value.coefficient.data[2 * i + 1] == block(i).value.coefficient.data[1] &&
              r.value.residual.data[2 * i] == block(i).value.residual.data[0] &&
              r.value.residual.data[2 * i + 1] == block(i).value.residual.data[1]
    decreases k
  {
    if k == 0 then Ok(Equations(Matrix(0, 3, []), Matrix(0, 1, [])))
    else
      match Stack(block, k - 1)
      case Err(e) => Err(e)
      case Ok(eq) =>
        match block(k - 1)
        case Err(e) => Err(e)
        case Ok(b) =>
          Ok(Equations(Matrix(2 * k, 3, eq.coefficient.data + b.coefficient.data),
                       Matrix(2 * k, 1, eq.residual.data + b.residual.data)))
  }

  /** The stacking stops at the first failing block with that block's error. */
  lemma {:induction false} StackFirstError(block: nat -> Result<Equations>, k: nat, i: nat)
    requires BlocksShaped(block, k) && i < k && block(i).Err?
    requires forall j :: 0 <= j < i ==> block(j).Ok?
    ensures Stack(block, k) == Err(block(i).error)
    decreases k
  {
    if i < k - 1 {
      StackFirstError(block, k - 1, i);
    } else {
      assert Stack(block, k - 1).Ok?;
    }
  }

  /** Two block functions that agree on the first k blocks stack the same. */
  lemma {:induction false} StackAgrees(block: nat -> Result<Equations>, block': nat -> Result<Equations>, k: nat)
    requires BlocksShaped(block, k) && BlocksShaped(block', k)
    requires forall i :: 0 <= i < k ==> block(i) == block'(i)
    ensures Stack(block, k) == Stack(block', k)
    decreases k
  {
    if k > 0 {
      StackAgrees(block, block', k - 1);
      assert block(k - 1) == block'(k - 1);
    }
  }

  /** A failed stacking carries the error of one of its blocks. */
  lemma {:induction false} StackError(block: nat -> Result<Equations>, k: nat)
    requires BlocksShaped(block, k) && Stack(block, k).Err?
    ensures exists i :: 0 <= i < k && block(i) == Err(Stack(block, k).error)
    decreases k
  {
    if Stack(block, k - 1).Err? {
      StackError(block, k - 1);
    } else {
      assert block(k - 1) == Err(Stack(block, k).error);
    }
  }

  // ---------------------------------------------------------------------------
  // One point's correction

  /** The three object-coordinate corrections are all below the threshold in magnitude. */
  predicate PointConverged(c: Matrix, threshold: real)
    requires IsShape(c, 3, 1)
    ensures PointConverged(c, threshold) ==> threshold > 0.0
  {
    Abs(c.data[0][0]) < threshold && Abs(c.data[1][0]) < threshold && Abs(c.data[2][0]) < threshold
  }

  /** coordinate(row, k) += correction(k) for k = 0, 1, 2; every other row is kept. */
  function AddToRow(m: Matrix, row: nat, c: Matrix): (r: Matrix)
    requires Valid(m) && m.cols == 3 && row < m.rows && IsShape(c, 3, 1)
    ensures IsShape(r, m.rows, 3)
    ensures r.data[row] == [m.data[row][0] + c.data[0][0], m.data[row][1] + c.data[1][0], m.data[row][2] + c.data[2][0]]
    ensures forall i :: 0 <= i < m.rows && i != row ==> r.data[i] == m.data[i]
  {
    m.(data := m.data[row := [m.data[row][0] + c.data[0][0], m.data[row][1] + c.data[1][0], m.data[row][2] + c.data[2][0]]])
  }

  /** The stacked equations of one point over all photographs and their least-squares correction. */
  function CorrectionOf(pick: RowPick, blocks: seq<Block>, coordinate: Matrix, row: nat, s: Solvers)
    : (r: Result<(Equations, Matrix)>)
    requires Observations(blocks) && Valid(coordinate) && coordinate.cols == 3 && WellShaped(s)
    ensures r.Err? ==> r.error == NonFinite || r.error == OutOfRange
    ensures pick == PointRow && row < coordinate.rows && (|blocks| > 0 ==> coordinate.rows == blocks[0].image.rows) && r.Err? ==>
              r.error == NonFinite
    ensures r.Ok? ==> EquationsShaped(r.value.0, |blocks|) && IsShape(r.value.1, 3, 1)
    ensures r.Ok? ==> r.value.1 == s.qr(r.value.0.coefficient, r.value.0.residual)
  {
    var block := SystemOf(pick, blocks, coordinate, row, s);
    match Stack(block, |blocks|)
    case Err(e) =>
      StackError(block, |blocks|);
      Err(e)
    case Ok(eq) => Ok((eq, Solve(eq.coefficient, eq.residual, s)))
  }

  /** The precision of a converged point: rmse over 2·count − 3 degrees of freedom and the error matrix of (AᵀA)⁻¹. */
  datatype PointPrecision = PointPrecision(rmse: real, sigma: Matrix)

  /** The residuals v = A·x − l of one point's equations. */
  function PointResiduals(eq: Equations, c: Matrix): (v: Matrix)
    requires Valid(eq.coefficient) && eq.coefficient.cols == 3
    requires IsShape(eq.residual, eq.coefficient.rows, 1) && IsShape(c, 3, 1)
    ensures IsShape(v, eq.coefficient.rows, 1)
  {
    Sub(Mul(eq.coefficient, c), eq.residual)
  }

  /** rmse from the residuals; sigma from nInv = (AᵀA)⁻¹. */
  function PrecisionOf(eq: Equations, c: Matrix, nInv: Matrix, sqrt: real -> real): (r: PointPrecision)
    requires Valid(eq.coefficient) && eq.coefficient.cols == 3 && eq.coefficient.rows >= 4
    requires IsShape(eq.residual, eq.coefficient.rows, 1) && IsShape(c, 3, 1) && IsShape(nInv, 3, 3)
    ensures var v := PointResiduals(eq, c);
            IsSqrtOf(sqrt, SquaredResiduals(v) / (v.rows - 3) as real) ==>
              r.rmse >= 0.0 && r.rmse * r.rmse * (v.rows - 3) as real == SquaredResiduals(v)
    ensures IsShape(r.sigma, 3, 3)
  {
    var rmse := ResidualRmse(PointResiduals(eq, c), 3, sqrt);
    PointPrecision(rmse, ErrorMatrix(rmse, nInv, sqrt))
  }

  /** The loop state: the coordinates, whether every point so far in this pass converged, the status and the precision. */
  datatype Progress = Progress(coordinate: Matrix, allConverged: bool, info: Info, precision: Option<PointPrecision>)

  /** Success is reported exactly when a precision is. */
  predicate Coherent(st: Progress)
  {
    st.info == Success <==> st.precision.Some?
  }

  predicate Inv(st: Progress, n: nat)
  {
    IsShape(st.coordinate, n, 3) && Coherent(st)
  }

  /**
   * One point of a pass: its correction is added to its row whatever its size; when all three
   * components are below the threshold the status becomes Success with this point's precision,
   * otherwise the pass is marked as not converged.
   */
  function CorrectRow(pick: RowPick, blocks: seq<Block>, st: Progress, row: nat, threshold: real, s: Solvers)
    : (r: Result<Progress>)
    requires Observations(blocks) && |blocks| >= 2 && Valid(st.coordinate) && st.coordinate.cols == 3
    requires row < st.coordinate.rows && WellShaped(s)
    ensures r.Ok? <==> CorrectionOf(pick, blocks, st.coordinate, row, s).Ok?
    ensures r.Err? ==> r.error == CorrectionOf(pick, blocks, st.coordinate, row, s).error
    ensures r.Ok? ==>
              var c := CorrectionOf(pick, blocks, st.coordinate, row, s).value.1;
              r.value.coordinate == AddToRow(st.coordinate, row, c) &&
              (r.value.allConverged <==> st.allConverged && PointConverged(c, threshold)) &&
              (r.value.info == Success <==> st.info == Success || PointConverged(c, threshold)) &&
              (PointConverged(c, threshold) || r.value.precision == st.precision)
    ensures r.Ok? && Coherent(st) ==> Coherent(r.value)
  {
    match CorrectionOf(pick, blocks, st.coordinate, row, s)
    case Err(e) => Err(e)
    case Ok((eq, c)) =>
      var coordinate := AddToRow(st.coordinate, row, c);
      if PointConverged(c, threshold)
      then Ok(Progress(coordinate, st.allConverged, Success, Some(PrecisionOf(eq, c, s.inverse(Mul(Transpose(eq.coefficient), eq.coefficient)), s.sqrt))))
      else Ok(Progress(coordinate, false, st.info, st.precision))
  }

  // ---------------------------------------------------------------------------
  // Passes

  /** A correction step keeps the coordinates' shape and the status coherent. */
  ghost predicate Sound(correct: (Progress, nat) -> Result<Progress>, n: nat)
  {
    forall st, row: nat :: Inv(st, n) && row < n && correct(st, row).Ok? ==> Inv(correct(st, row).value, n)
  }

  /** One pass over points row .. n − 1, each corrected in turn from the state the previous one left. */
  function Sweep(correct: (Progress, nat) -> Result<Progress>, st: Progress, row: nat, n: nat): (r: Result<Progress>)
    requires Sound(correct, n) && Inv(st, n)
    ensures r.Ok? ==> Inv(r.value, n)
    ensures r.Err? ==> exists st', row': nat :: Inv(st', n) && row' < n && correct(st', row') == Err(r.error)
    decreases n - row
  {
    if row >= n then Ok(st)
    else
      match correct(st, row)
      case Err(e) => Err(e)
      case Ok(st') => Sweep(correct, st', row + 1, n)
  }

  /**
   * At most `budget` passes, each starting with every point presumed converged; stop after a
   * pass in which every point converged.
   */
  function Rounds(correct: (Progress, nat) -> Result<Progress>, n: nat, st: Progress, budget: nat): (r: Result<Progress>)
    requires Sound(correct, n) && Inv(st, n)
    ensures r.Ok? ==> Inv(r.value, n)
    ensures r.Err? ==> exists st', row': nat :: Inv(st', n) && row' < n && correct(st', row') == Err(r.error)
    decreases budget
  {
    if budget == 0 then Ok(st)
    else
      match Sweep(correct, st.(allConverged := true), 0, n)
      case Err(e) => Err(e)
      case Ok(st') => if st'.allConverged then Ok(st') else Rounds(correct, n, st', budget - 1)
  }

  /** One round: a failed pass stops, a pass in which every point converged stops, otherwise go on. */
  lemma RoundsUnfold(correct: (Progress, nat) -> Result<Progress>, n: nat, st: Progress, budget: nat)
    requires Sound(correct, n) && Inv(st, n) && budget > 0
    ensures var sw := Sweep(correct, st.(allConverged := true), 0, n);
            Rounds(correct, n, st, budget) ==
              if sw.Err? then Err(sw.error)
              else if sw.value.allConverged then sw
              else Rounds(correct, n, sw.value, budget - 1)
  {
  }

  /** The state after k passes, none of them stopping the loop. */
  function Passes(correct: (Progress, nat) -> Result<Progress>, n: nat, st: Progress, k: nat): Result<Progress>
    requires Sound(correct, n) && Inv(st, n)
    decreases k
  {
    if k == 0 then Ok(st)
    else
      match Sweep(correct, st.(allConverged := true), 0, n)
      case Err(e) => Err(e)
      case Ok(st') => Passes(correct, n, st', k - 1)
  }

  /** The first k passes succeed and in each of them some point did not converge. */
  predicate NoneStopped(correct: (Progress, nat) -> Result<Progress>, n: nat, st: Progress, k: nat)
    requires Sound(correct, n) && Inv(st, n)
    decreases k
  {
    k == 0 ||
    (var sw := Sweep(correct, st.(allConverged := true), 0, n);
     sw.Ok? && !sw.value.allConverged && NoneStopped(correct, n, sw.value, k - 1))
  }

  /**
   * A result whose last pass had every point converge comes from a pass taken after k < budget
   * passes that did not stop the loop.
   */
  lemma {:induction false} RoundsStopped(correct: (Progress, nat) -> Result<Progress>, n: nat, st: Progress, budget: nat)
    requires Sound(correct, n) && Inv(st, n) && !st.allConverged
    requires Rounds(correct, n, st, budget).Ok? && Rounds(correct, n, st, budget).value.allConverged
    ensures exists k :: 0 <= k < budget && Passes(correct, n, st, k).Ok? && NoneStopped(correct, n, st, k) &&
                        Inv(Passes(correct, n, st, k).value, n) &&
                        Sweep(correct, Passes(correct, n, st, k).value.(allConverged := true), 0, n) == Rounds(correct, n, st, budget)
    decreases budget
  {
    var sw := Sweep(correct, st.(allConverged := true), 0, n);
    if sw.value.allConverged {
      assert Passes(correct, n, st, 0) == Ok(st);
      assert NoneStopped(correct, n, st, 0);
    } else {
      RoundsStopped(correct, n, sw.value, budget - 1);
      var k :| 0 <= k < budget - 1 && Passes(correct, n, sw.value, k).Ok? && NoneStopped(correct, n, sw.value, k) &&
               Inv(Passes(correct, n, sw.value, k).value, n) &&
               Sweep(correct, Passes(correct, n, sw.value, k).value.(allConverged := true), 0, n) == Rounds(correct, n, sw.value, budget - 1);
      assert Passes(correct, n, st, k + 1) == Passes(correct, n, sw.value, k);
      assert NoneStopped(correct, n, st, k + 1);
    }
  }

  /** A result without a fully converged pass is the state after all `budget` passes, none of which stopped the loop. */
  lemma {:induction false} RoundsExhausted(correct: (Progress, nat) -> Result<Progress>, n: nat, st: Progress, budget: nat)
    requires Sound(correct, n) && Inv(st, n)
    requires Rounds(correct, n, st, budget).Ok? && !Rounds(correct, n, st, budget).value.allConverged
    ensures Passes(correct, n, st, budget) == Rounds(correct, n, st, budget)
    ensures NoneStopped(correct, n, st, budget)
    decreases budget
  {
    if budget > 0 {
      var sw := Sweep(correct, st.(allConverged := true), 0, n);
      RoundsExhausted(correct, n, sw.value, budget - 1);
    }
  }

  // ---------------------------------------------------------------------------
  // spaceIntersection over two or more photographs

  /** The correction step of this problem for n points (a malformed state is out of range). */
  function CorrectOf(pick: RowPick, blocks: seq<Block>, threshold: real, s: Solvers, n: nat)
    : (correct: (Progress, nat) -> Result<Progress>)
    requires Observations(blocks) && |blocks| >= 2 && WellShaped(s)
    ensures Sound(correct, n) && Corrects(correct, pick, blocks, threshold, s, n)
  {
    (st: Progress, row: nat) =>
      if IsShape(st.coordinate, n, 3) && row < n then CorrectRow(pick, blocks, st, row, threshold, s) else Err(OutOfRange)
  }

  /** correct is CorrectRow on well-shaped states (instantiated only where a CorrectRow term is at hand). */
  ghost predicate Corrects(correct: (Progress, nat) -> Result<Progress>, pick: RowPick, blocks: seq<Block>, threshold: real,
                           s: Solvers, n: nat)
    requires Observations(blocks) && |blocks| >= 2 && WellShaped(s)
  {
    forall st: Progress, row: nat {:trigger CorrectRow(pick, blocks, st, row, threshold, s)} ::
      IsShape(st.coordinate, n, 3) && row < n ==> correct(st, row) == CorrectRow(pick, blocks, st, row, threshold, s)
  }

  /** Space_Intersection_Ols_Result: the coordinates, the status and the precision of the last converged point. */
  datatype IntersectionResult = IntersectionResult(coordinate: Matrix, info: Info, precision: Option<PointPrecision>)

  /** The refinement loop from a start coordinate matrix: at most maxLoop passes over all points. */
  function Refine(pick: RowPick, blocks: seq<Block>, start: Matrix, maxLoop: nat, threshold: real, s: Solvers)
    : (r: Result<IntersectionResult>)
    requires Observations(blocks) && |blocks| >= 2 && WellShaped(s) && IsShape(start, blocks[0].image.rows, 3)
    ensures r.Err? ==> r.error == NonFinite || r.error == OutOfRange
    ensures r.Ok? ==> IsShape(r.value.coordinate, blocks[0].image.rows, 3)
    ensures r.Ok? ==> (r.value.info == Success <==> r.value.precision.Some?)
    ensures maxLoop == 0 ==> r == Ok(IntersectionResult(start, NotConverged, None))
  {
    var n := blocks[0].image.rows;
    var correct := CorrectOf(pick, blocks, threshold, s, n);
    match Rounds(correct, n, Progress(start, false, NotConverged, None), maxLoop)
    case Err(e) =>
      var st: Progress, row: nat :| Inv(st, n) && row < n && correct(st, row) == Err(e);
      assert correct(st, row) == CorrectRow(pick, blocks, st, row, threshold, s);
      Err(e)
    case Ok(st) => Ok(IntersectionResult(st.coordinate, st.info, st.precision))
  }

  /**
   * The specification of the iterative spaceIntersection: an invalid argument for fewer than
   * two photographs; otherwise the closed form of the first two, refined by at most maxLoop
   * passes over all points. With `pick` as written (BlockIndex) a photograph index past the
   * points is out of range.
   */
  function Intersect(pick: RowPick, blocks: seq<Block>, maxLoop: nat, threshold: real, s: Solvers)
    : (r: Result<IntersectionResult>)
    requires Observations(blocks) && WellShaped(s)
    ensures r == Err(InvalidArgument) <==> |blocks| < 2
    ensures r.Err? ==> r.error == InvalidArgument || r.error == NonFinite || r.error == OutOfRange
    ensures r.Ok? ==> IsShape(r.value.coordinate, blocks[0].image.rows, 3)
    ensures r.Ok? ==> (r.value.info == Success <==> r.value.precision.Some?)
    ensures r.Ok? && maxLoop == 0 ==>
              |blocks| >= 2 && ClosedForm(blocks[0], blocks[1], s) == Ok(r.value.coordinate) &&
              r.value.info == NotConverged && r.value.precision == None
  {
    if |blocks| < 2 then Err(InvalidArgument)
    else
      match ClosedForm(blocks[0], blocks[1], s)
      case Err(e) => Err(e)
      case Ok(start) => Refine(pick, blocks, start, maxLoop, threshold, s)
  }

  /**
   * The stopping rule of spaceIntersection: a result is the last state of the loop started at
   * the closed form of the first two photographs. Either that state comes from a pass in which
   * every point converged, taken after k < maxLoop passes that did not stop the loop, or all
   * maxLoop passes ran and none of them had every point converge.
   */
  lemma IntersectStoppingRule(pick: RowPick, blocks: seq<Block>, maxLoop: nat, threshold: real, s: Solvers)
    requires Observations(blocks) && WellShaped(s)
    requires Intersect(pick, blocks, maxLoop, threshold, s).Ok?
    ensures |blocks| >= 2 && ClosedForm(blocks[0], blocks[1], s).Ok?
    ensures var n := blocks[0].image.rows;
            var correct := CorrectOf(pick, blocks, threshold, s, n);
            var st0 := Progress(ClosedForm(blocks[0], blocks[1], s).value, false, NotConverged, None);
            var r := Intersect(pick, blocks, maxLoop, threshold, s).value;
            exists fin: Progress ::
              Inv(fin, n) && r == IntersectionResult(fin.coordinate, fin.info, fin.precision) &&
              ((fin.allConverged &&
                exists k :: 0 <= k < maxLoop && Passes(correct, n, st0, k).Ok? && NoneStopped(correct, n, st0, k) &&
                            Inv(Passes(correct, n, st0, k).value, n) &&
                            Sweep(correct, Passes(correct, n, st0, k).value.(allConverged := true), 0, n) == Ok(fin)) ||
               (!fin.allConverged && Passes(correct, n, st0, maxLoop) == Ok(fin) && NoneStopped(correct, n, st0, maxLoop)))
  {
    var n := blocks[0].image.rows;
    var correct := CorrectOf(pick, blocks, threshold, s, n);
    var st0 := Progress(ClosedForm(blocks[0], blocks[1], s).value, false, NotConverged, None);
    var rounds := Rounds(correct, n, st0, maxLoop);
    assert rounds.Ok?;
    var fin := rounds.value;
    if fin.allConverged {
      RoundsStopped(correct, n, st0, maxLoop);
    } else {
      RoundsExhausted(correct, n, st0, maxLoop);
    }
  }

  /** With each photograph read at the point's own row, no row is ever out of range. */
  lemma RefineInRange(blocks: seq<Block>, start: Matrix, maxLoop: nat, threshold: real, s: Solvers)
    requires Observations(blocks) && |blocks| >= 2 && WellShaped(s) && IsShape(start, blocks[0].image.rows, 3)
    ensures Refine(PointRow, blocks, start, maxLoop, threshold, s).Err? ==>
              Refine(PointRow, blocks, start, maxLoop, threshold, s).error == NonFinite
  {
    var n := blocks[0].image.rows;
    var correct := CorrectOf(PointRow, blocks, threshold, s, n);
    var rounds := Rounds(correct, n, Progress(start, false, NotConverged, None), maxLoop);
    if rounds.Err? {
      var st: Progress, row: nat :| Inv(st, n) && row < n && correct(st, row) == Err(rounds.error);
      assert correct(st, row) == CorrectRow(PointRow, blocks, st, row, threshold, s);
    }
  }

  /** With each photograph read at the point's own row, spaceIntersection never reads past a matrix. */
  lemma IntersectInRange(blocks: seq<Block>, maxLoop: nat, threshold: real, s: Solvers)
    requires Observations(blocks) && WellShaped(s)
    ensures Intersect(PointRow, blocks, maxLoop, threshold, s).Err? ==>
              Intersect(PointRow, blocks, maxLoop, threshold, s).error != OutOfRange
  {
    if |blocks| >= 2 && ClosedForm(blocks[0], blocks[1], s).Ok? {
      RefineInRange(blocks, ClosedForm(blocks[0], blocks[1], s).value, maxLoop, threshold, s);
    }
  }

  /**
   * Reading each photograph at the point's own row, the equations of point `row` depend only
   * on that row of the coordinates: earlier points' corrections in the same pass do not
   * change them.
   */
  lemma PointRowLocal(blocks: seq<Block>, c1: Matrix, c2: Matrix, row: nat, s: Solvers)
    requires Observations(blocks) && WellShaped(s)
    requires Valid(c1) && c1.cols == 3 && Valid(c2) && c2.cols == 3 && row < c1.rows && row < c2.rows
    requires c1.data[row] == c2.data[row]
    ensures Stack(SystemOf(PointRow, blocks, c1, row, s), |blocks|) == Stack(SystemOf(PointRow, blocks, c2, row, s), |blocks|)
  {
    var b1 := SystemOf(PointRow, blocks, c1, row, s);
    var b2 := SystemOf(PointRow, blocks, c2, row, s);
    forall i | 0 <= i < |blocks|
      ensures b1(i) == b2(i)
    {
      assert b1(i) == BlockOf(PointRow, blocks, c1, row, i, s);
      assert b2(i) == BlockOf(PointRow, blocks, c2, row, i, s);
      assert RowMatrix(c1, row) == RowMatrix(c2, row);
    }
    StackAgrees(b1, b2, |blocks|);
  }

  /**
   * As written (each photograph read at its own index), every point gets the same equations,
   * built from the first |blocks| points: the point being corrected and its observations never
   * enter them unless its row is below the number of photographs.
   */
  lemma AsWrittenSameForEveryPoint(blocks: seq<Block>, c1: Matrix, c2: Matrix, row1: nat, row2: nat, s: Solvers)
    requires Observations(blocks) && WellShaped(s)
    requires Valid(c1) && c1.cols == 3 && Valid(c2) && c2.cols == 3 && c1.rows == c2.rows
    requires forall i :: 0 <= i < |blocks| && i < c1.rows ==> c1.data[i] == c2.data[i]
    ensures Stack(SystemOf(BlockIndex, blocks, c1, row1, s), |blocks|) ==
            Stack(SystemOf(BlockIndex, blocks, c2, row2, s), |blocks|)
  {
    var b1 := SystemOf(BlockIndex, blocks, c1, row1, s);
    var b2 := SystemOf(BlockIndex, blocks, c2, row2, s);
    forall i | 0 <= i < |blocks|
      ensures b1(i) == b2(i)
    {
      assert b1(i) == BlockOf(BlockIndex, blocks, c1, row1, i, s);
      assert b2(i) == BlockOf(BlockIndex, blocks, c2, row2, i, s);
      if i < c1.rows {
        assert RowMatrix(c1, i) == RowMatrix(c2, i);
      }
    }
    StackAgrees(b1, b2, |blocks|);
  }

  // ---------------------------------------------------------------------------
  // The loops

  /** One photograph's equations for one point, with the residual loop: the equations BlockEquations specifies. */
  method BlockPass(meta: Meta, obj: Matrix, img: Matrix, s: Solvers) returns (r: Result<Equations>)
    requires IsShape(obj, 1, 3) && IsShape(img, 1, 2) && WellShaped(s)
    ensures r == BlockEquations(meta, obj, img, s)
  {
    var rotate := s.rotation(meta.exterior);
    var isp := ProjectPoints(obj, meta.exterior, rotate);
    var projected := Isp2Img(isp, meta.interior);
    if projected.Err? {
      return Err(projected.error);
    }
    var imgCalc := projected.value;
    var l := FillResidual(Sub(img, imgCalc));
    var c := s.cce(PointParams(meta.interior, meta.exterior, rotate, imgCalc, isp)[0]);
    if c.None? {
      return Err(NonFinite);
    }
    return Ok(Equations(ObjectColumns(c.value), l));
  }

  /** Photograph i's equations for one point, read at the picked row: block i. */
  method BlockAt(pick: RowPick, blocks: seq<Block>, coordinate: Matrix, row: nat, i: nat, s: Solvers,
                 ghost block: nat -> Result<Equations>)
    returns (r: Result<Equations>)
    requires Observations(blocks) && i < |blocks| && Valid(coordinate) && coordinate.cols == 3 && WellShaped(s)
    requires Builds(block, pick, blocks, coordinate, row, s)
    ensures r == block(i)
  {
    assert block(i) == BlockOf(pick, blocks, coordinate, row, i, s);
    var idx := Pick(pick, row, i);
    if idx >= blocks[i].image.rows || idx >= coordinate.rows {
      return Err(OutOfRange);
    }
    r := BlockPass(blocks[i].meta, RowMatrix(coordinate, idx), RowMatrix(blocks[i].image, idx), s);
  }

  /**
   * The loop over photographs for one point: block i of the 2·count x 3 coefficients and the
   * 2·count x 1 residual written in rows 2i and 2i + 1.
   */
  method FillSystem(pick: RowPick, blocks: seq<Block>, coordinate: Matrix, row: nat, s: Solvers,
                    ghost block: nat -> Result<Equations>)
    returns (r: Result<Equations>)
    requires Observations(blocks) && Valid(coordinate) && coordinate.cols == 3 && WellShaped(s)
    requires Builds(block, pick, blocks, coordinate, row, s) && BlocksShaped(block, |blocks|)
    ensures r == Stack(block, |blocks|)
  {
    var count := |blocks|;
    var coeff := Zero(2 * count, 3);
    var residual := Zero(2 * count, 1);
    var i := 0;
    while i != count
      invariant 0 <= i <= count
      invariant IsShape(coeff, 2 * count, 3) && IsShape(residual, 2 * count, 1)
      invariant forall j :: 0 <= j < i ==> block(j).Ok?
      invariant forall j :: 0 <= j < i ==>
                  coeff.data[2 * j] == block(j).value.coefficient.data[0] &&
                  coeff.data[2 * j + 1] == block(j).value.coefficient.data[1] &&
                  residual.data[2 * j] == block(j).value.residual.data[0] &&
                  residual.data[2 * j + 1] == block(j).value.residual.data[1]
    {
      var b := BlockAt(pick, blocks, coordinate, row, i, s, block);
      if b.Err? {
        StackFirstError(block, count, i);
        return Err(b.error);
      }
      var e := b.value;
      coeff := coeff.(data := coeff.data[2 * i := e.coefficient.data[0]][2 * i + 1 := e.coefficient.data[1]]);
      residual := residual.(data := residual.data[2 * i := e.residual.data[0]][2 * i + 1 := e.residual.data[1]]);
      i := i + 1;
    }
    var stacked := Stack(block, count).value;
    forall k | 0 <= k < 2 * count
      ensures coeff.data[k] == stacked.coefficient.data[k] && residual.data[k] == stacked.residual.data[k]
    {
      var j := k / 2;
      assert block(j).Ok?;
      if k % 2 == 0 {
        assert k == 2 * j;
      } else {
        assert k == 2 * j + 1;
      }
    }
    assert coeff == stacked.coefficient && residual == stacked.residual;
    return Ok(Equations(coeff, residual));
  }

  /** One point of a pass: stack, solve, test the three corrections, update the status and the row. */
  method CorrectPoint(pick: RowPick, blocks: seq<Block>, st: Progress, row: nat, threshold: real, s: Solvers)
    returns (r: Result<Progress>)
    requires Observations(blocks) && |blocks| >= 2 && Valid(st.coordinate) && st.coordinate.cols == 3
    requires row < st.coordinate.rows && WellShaped(s)
    ensures r == CorrectRow(pick, blocks, st, row, threshold, s)
  {
    var system := FillSystem(pick, blocks, st.coordinate, row, s, SystemOf(pick, blocks, st.coordinate, row, s));
    if system.Err? {
      return Err(system.error);
    }
    var eq := system.value;
    var correction := Solve(eq.coefficient, eq.residual, s);
    var next := st;
    if PointConverged(correction, threshold) {
      var nInv := s.inverse(Mul(Transpose(eq.coefficient), eq.coefficient));
      next := next.(info := Success, precision := Some(PrecisionOf(eq, correction, nInv, s.sqrt)));
    } else {
      next := next.(allConverged := false);
    }
    next := next.(coordinate := AddToRow(st.coordinate, row, correction));
    return Ok(next);
  }

  /** The loop over points of one pass, each corrected in place from the state the previous one left. */
  method SweepPoints(pick: RowPick, blocks: seq<Block>, start: Progress, n: nat, threshold: real, s: Solvers,
                     ghost correct: (Progress, nat) -> Result<Progress>)
    returns (r: Result<Progress>)
    requires Observations(blocks) && |blocks| >= 2 && WellShaped(s)
    requires Sound(correct, n) && Corrects(correct, pick, blocks, threshold, s, n) && Inv(start, n)
    ensures r == Sweep(correct, start, 0, n)
  {
    var st := start;
    var row := 0;
    while row != n
      invariant 0 <= row <= n && Inv(st, n)
      invariant Sweep(correct, st, row, n) == Sweep(correct, start, 0, n)
      decreases n - row
    {
      var next := CorrectPoint(pick, blocks, st, row, threshold, s);
      assert correct(st, row) == CorrectRow(pick, blocks, st, row, threshold, s);
      if next.Err? {
        return Err(next.error);
      }
      st := next.value;
      row := row + 1;
    }
    return Ok(st);
  }

  /** The while loop: at most maxLoop passes, stopping after one in which every point converged. */
  method RunRounds(pick: RowPick, blocks: seq<Block>, start: Progress, n: nat, maxLoop: nat, threshold: real, s: Solvers,
                   ghost correct: (Progress, nat) -> Result<Progress>)
    returns (r: Result<Progress>)
    requires Observations(blocks) && |blocks| >= 2 && WellShaped(s)
    requires Sound(correct, n) && Corrects(correct, pick, blocks, threshold, s, n) && Inv(start, n)
    ensures r == Rounds(correct, n, start, maxLoop)
  {
    var st := start;
    var loops := maxLoop;
    while loops > 0
      invariant Inv(st, n)
      invariant Rounds(correct, n, st, loops) == Rounds(correct, n, start, maxLoop)
      decreases loops
    {
      var swept := SweepPoints(pick, blocks, st.(allConverged := true), n, threshold, s, correct);
      RoundsUnfold(correct, n, st, loops);
      loops := loops - 1;
      if swept.Err? {
        return Err(swept.error);
      }
      st := swept.value;
      if st.allConverged {
        return Ok(st);
      }
    }
    return Ok(st);
  }

  /** spaceIntersection over two or more photographs: the argument check, the closed-form start and the loop. */
  method SpaceIntersection(pick: RowPick, blocks: seq<Block>, maxLoop: nat, threshold: real, s: Solvers)
    returns (r: Result<IntersectionResult>)
    requires Observations(blocks) && WellShaped(s)
    ensures r == Intersect(pick, blocks, maxLoop, threshold, s)
  {
    var count := |blocks|;
    if count < 2 {
      return Err(InvalidArgument);
    }
    var closed := ClosedForm(blocks[0], blocks[1], s);
    if closed.Err? {
      return Err(closed.error);
    }
    var n := blocks[0].image.rows;
    var outcome := RunRounds(pick, blocks, Progress(closed.value, false, NotConverged, None), n, maxLoop, threshold, s,
                             CorrectOf(pick, blocks, threshold, s, n));
    match outcome {
      case Err(e) =>
        r := Err(e);
      case Ok(st) =>
        r := Ok(IntersectionResult(st.coordinate, st.info, st.precision));
    }
  }
}

/**
 * Dense matrix primitives: shape tests, the normal equation, the inverse cascade, least
 * squares, rigid-body coordinate transforms and precision measures. A matrix carries its
 * dimensions, so an n x 0 or 0 x n matrix keeps its shape. The factorisations (LLT, LDLT,
 * SVD, the QR solve) and sqrt are supplied as functions.
 */
module Linalg {
  import opened Wrappers

  /** A dense matrix: its dimensions and its rows. */
  datatype Matrix = Matrix(rows: nat, cols: nat, data: seq<seq<real>>)

  /** The rows are as many and as long as the dimensions say. */
  predicate Valid(m: Matrix)
  {
    |m.data| == m.rows && forall i :: 0 <= i < m.rows ==> |m.data[i]| == m.cols
  }

  predicate IsShape(m: Matrix, rows: nat, cols: nat)
  {
    Valid(m) && m.rows == rows && m.cols == cols
  }

  /** Matrix::Zero(rows, cols). */
  function Zero(rows: nat, cols: nat): (z: Matrix)
    ensures IsShape(z, rows, cols)
    ensures forall i, j :: 0 <= i < rows && 0 <= j < cols ==> z.data[i][j] == 0.0
  {
    Matrix(rows, cols, seq(rows, _ => seq(cols, _ => 0.0)))
  }

  /** m(i, j) = x: the same matrix with one entry replaced. */
  function Assign(m: Matrix, i: nat, j: nat, x: real): (r: Matrix)
    requires Valid(m) && i < m.rows && j < m.cols
    ensures IsShape(r, m.rows, m.cols)
  {
    m.(data := m.data[i := m.data[i][j := x]])
  }

  /** After m(i, j) = x, entry (i, j) is x and every other entry is as in m. */
  lemma AssignEntries(m: Matrix, i: nat, j: nat, x: real)
    requires Valid(m) && i < m.rows && j < m.cols
    ensures var r := Assign(m, i, j, x);
            forall i', j' :: 0 <= i' < m.rows && 0 <= j' < m.cols ==>
              r.data[i'][j'] == if i' == i && j' == j then x else m.data[i'][j']
  {
  }

  /** Writing one entry twice keeps the second value. */
  lemma AssignTwice(m: Matrix, i: nat, j: nat, x: real, y: real)
    requires Valid(m) && i < m.rows && j < m.cols
    ensures Assign(Assign(m, i, j, x), i, j, y) == Assign(m, i, j, y)
  {
    var r, r' := Assign(Assign(m, i, j, x), i, j, y), Assign(m, i, j, y);
    assert r.data[i] == r'.data[i];
    assert r.data == r'.data;
  }

  /** identityLike / Matrix::Identity(rows, cols): ones on the main diagonal, zeros elsewhere. */
  function IdentityLike(rows: nat, cols: nat): (e: Matrix)
    ensures IsShape(e, rows, cols)
    ensures forall i, j :: 0 <= i < rows && 0 <= j < cols ==> e.data[i][j] == if i == j then 1.0 else 0.0
  {
    Matrix(rows, cols, seq(rows, i => seq(cols, j => if i == j then 1.0 else 0.0)))
  }

  /** isZero: every entry is zero. */
  predicate IsZero(m: Matrix)
    requires Valid(m)
  {
    forall i, j :: 0 <= i < m.rows && 0 <= j < m.cols ==> m.data[i][j] == 0.0
  }

  /** isIdentity: ones on the main diagonal and zeros elsewhere, for any shape. */
  predicate IsIdentity(m: Matrix)
    requires Valid(m)
  {
    forall i, j :: 0 <= i < m.rows && 0 <= j < m.cols ==> m.data[i][j] == if i == j then 1.0 else 0.0
  }

  /** isPlaceHolder: the 1 x 1 zero matrix that stands for an absent weight matrix. */
  predicate IsPlaceHolder(p: Matrix)
    requires Valid(p)
  {
    IsZero(p) && p.rows == 1 && p.cols == 1
  }

  /** A weight matrix that asks for no weighting: the placeholder or an identity. */
  predicate Unweighted(p: Matrix)
    requires Valid(p)
  {
    IsPlaceHolder(p) || IsIdentity(p)
  }

  /** isPlaceHolder holds for exactly one matrix, the 1 x 1 zero. */
  lemma PlaceHolderIsOneZero(p: Matrix)
    requires Valid(p)
    ensures IsPlaceHolder(p) <==> p == Matrix(1, 1, [[0.0]])
  {
    if IsPlaceHolder(p) {
      assert p.data[0] == [0.0];
    }
  }

  /** The 1 x 1 identity is no placeholder, and a placeholder is no identity. */
  lemma PlaceHolderIsNotIdentity(p: Matrix)
    requires Valid(p) && IsPlaceHolder(p)
    ensures !IsIdentity(p) && IsIdentity(IdentityLike(1, 1)) && !IsPlaceHolder(IdentityLike(1, 1))
  {
    assert p.data[0][0] == 0.0;
    assert IdentityLike(1, 1).data[0][0] == 1.0;
  }

  function Transpose(m: Matrix): (t: Matrix)
    requires Valid(m)
    ensures IsShape(t, m.cols, m.rows)
    ensures forall i, j :: 0 <= i < m.cols && 0 <= j < m.rows ==> t.data[i][j] == m.data[j][i]
  {
    Matrix(m.cols, m.rows, seq(m.cols, i requires 0 <= i < m.cols => seq(m.rows, j requires 0 <= j < m.rows => m.data[j][i])))
  }

  /** The sum of the products of corresponding entries. */
  function Dot(u: seq<real>, v: seq<real>): real
    requires |u| == |v|
  {
    if |u| == 0 then 0.0 else Dot(u[..|u| - 1], v[..|v| - 1]) + u[|u| - 1] * v[|v| - 1]
  }

  /** Column j of m. */
  function Column(m: Matrix, j: nat): (c: seq<real>)
    requires Valid(m) && j < m.cols
    ensures |c| == m.rows
  {
    seq(m.rows, i requires 0 <= i < m.rows => m.data[i][j])
  }

  /** The matrix product. */
  function Mul(a: Matrix, b: Matrix): (c: Matrix)
    requires Valid(a) && Valid(b) && a.cols == b.rows
    ensures IsShape(c, a.rows, b.cols)
  {
    Matrix(a.rows, b.cols,
      seq(a.rows, i requires 0 <= i < a.rows =>
        seq(b.cols, j requires 0 <= j < b.cols => Dot(a.data[i], Column(b, j)))))
  }

  /** Entrywise difference. */
  function Sub(a: Matrix, b: Matrix): (c: Matrix)
    requires Valid(a) && Valid(b) && a.rows == b.rows && a.cols == b.cols
    ensures IsShape(c, a.rows, a.cols)
  {
    Matrix(a.rows, a.cols,
      seq(a.rows, i requires 0 <= i < a.rows => seq(a.cols, j requires 0 <= j < a.cols => a.data[i][j] - b.data[i][j])))
  }

  /** Every entry times s. */
  function Times(m: Matrix, s: real): (c: Matrix)
    requires Valid(m)
    ensures IsShape(c, m.rows, m.cols)
  {
    Matrix(m.rows, m.cols,
      seq(m.rows, i requires 0 <= i < m.rows => seq(m.cols, j requires 0 <= j < m.cols => m.data[i][j] * s)))
  }

  /** Every entry divided by s. */
  function Over(m: Matrix, s: real): (c: Matrix)
    requires Valid(m) && s != 0.0
    ensures IsShape(c, m.rows, m.cols)
  {
    Matrix(m.rows, m.cols,
      seq(m.rows, i requires 0 <= i < m.rows => seq(m.cols, j requires 0 <= j < m.cols => m.data[i][j] / s)))
  }

  /** Dividing every entry by s and multiplying it back gives the matrix back. */
  lemma TimesOver(m: Matrix, s: real)
    requires Valid(m) && s != 0.0
    ensures Times(Over(m, s), s) == m
  {
    var r := Times(Over(m, s), s);
    forall i | 0 <= i < m.rows
      ensures r.data[i] == m.data[i]
    {
      forall j | 0 <= j < m.cols
        ensures r.data[i][j] == m.data[i][j]
      {
        DivTimes(m.data[i][j], s);
      }
    }
  }

  lemma DivTimes(x: real, s: real)
    requires s != 0.0
    ensures x / s * s == x
  {
  }

  // ---------------------------------------------------------------------------
  // Facts about products

  /** Dotting with the j-th unit vector picks entry j. */
  lemma {:induction false} DotUnit(u: seq<real>, e: seq<real>, j: nat)
    requires |u| == |e| && j < |u|
    requires forall k :: 0 <= k < |e| ==> e[k] == if k == j then 1.0 else 0.0
    ensures Dot(u, e) == u[j]
  {
    var n := |u|;
    if n - 1 == j {
      DotZero(u[..n - 1], e[..n - 1]);
    } else {
      DotUnit(u[..n - 1], e[..n - 1], j);
    }
  }

  /** Dotting with a zero vector gives zero. */
  lemma {:induction false} DotZero(u: seq<real>, e: seq<real>)
    requires |u| == |e|
    requires forall k :: 0 <= k < |e| ==> e[k] == 0.0
    ensures Dot(u, e) == 0.0
  {
    if |u| > 0 {
      DotZero(u[..|u| - 1], e[..|e| - 1]);
    }
  }

  /** The dot product is symmetric. */
  lemma {:induction false} DotSymmetric(u: seq<real>, v: seq<real>)
    requires |u| == |v|
    ensures Dot(u, v) == Dot(v, u)
  {
    if |u| > 0 {
      DotSymmetric(u[..|u| - 1], v[..|v| - 1]);
    }
  }

  /** A sum of squares is never negative. */
  lemma {:induction false} DotSelfNonnegative(u: seq<real>)
    ensures Dot(u, u) >= 0.0
  {
    if |u| > 0 {
      DotSelfNonnegative(u[..|u| - 1]);
    }
  }

  /** Multiplying on the right by an identity changes nothing. */
  lemma MulIdentityRight(m: Matrix, e: Matrix)
    requires Valid(m) && IsShape(e, m.cols, m.cols) && IsIdentity(e)
    ensures Mul(m, e) == m
  {
    var p := Mul(m, e);
    forall i | 0 <= i < m.rows
      ensures p.data[i] == m.data[i]
    {
      forall j | 0 <= j < m.cols
        ensures p.data[i][j] == m.data[i][j]
      {
        DotUnit(m.data[i], Column(e, j), j);
      }
    }
  }

  /** AᵀA is symmetric. */
  lemma GramSymmetric(a: Matrix)
    requires Valid(a)
    ensures var g := Mul(Transpose(a), a);
            forall i, j :: 0 <= i < a.cols && 0 <= j < a.cols ==> g.data[i][j] == g.data[j][i]
  {
    var t := Transpose(a);
    var g := Mul(t, a);
    forall i, j | 0 <= i < a.cols && 0 <= j < a.cols
      ensures g.data[i][j] == g.data[j][i]
    {
      assert t.data[i] == Column(a, i);
      assert t.data[j] == Column(a, j);
      DotSymmetric(Column(a, i), Column(a, j));
    }
  }

  // ---------------------------------------------------------------------------
  // Normal equation and least squares

  /** A weight matrix the normal equation accepts: no weighting, or one weight entry per row of A. */
  predicate WeightFits(a: Matrix, p: Matrix)
    requires Valid(p)
  {
    Unweighted(p) || (p.rows == a.rows && p.cols == a.rows)
  }

  /** normalizedEquation: AᵀA when P asks for no weighting, AᵀPA otherwise. */
  function NormalizedEquation(a: Matrix, p: Matrix): (n: Matrix)
    requires Valid(a) && Valid(p) && WeightFits(a, p)
    ensures IsShape(n, a.cols, a.cols)
    ensures Unweighted(p) ==> n == Mul(Transpose(a), a)
    ensures !Unweighted(p) ==> n == Mul(Mul(Transpose(a), p), a)
  {
    if IsPlaceHolder(p) || IsIdentity(p) then Mul(Transpose(a), a)
    else Mul(Mul(Transpose(a), p), a)
  }

  /** Weighting by an identity gives the unweighted normal matrix, which is symmetric. */
  lemma NormalizedEquationIdentity(a: Matrix)
    requires Valid(a)
    ensures NormalizedEquation(a, IdentityLike(a.rows, a.rows)) == Mul(Mul(Transpose(a), IdentityLike(a.rows, a.rows)), a)
    ensures var n := NormalizedEquation(a, IdentityLike(a.rows, a.rows));
            forall i, j :: 0 <= i < a.cols && 0 <= j < a.cols ==> n.data[i][j] == n.data[j][i]
  {
    MulIdentityRight(Transpose(a), IdentityLike(a.rows, a.rows));
    GramSymmetric(a);
  }

  /** The factorisations the inverse cascade draws on; None is a failed factorisation. */
  datatype Svd = Svd(u: Matrix, singular: seq<real>, v: Matrix)
  datatype Factorizations = Factorizations(
    llt: Matrix -> Option<Matrix>,    // Eigen::LLT(p).solve(identityLike(p)) when info() == Success
    ldlt: Matrix -> Option<Matrix>,   // the same with Eigen::LDLT
    svd: Matrix -> Svd)               // Eigen::JacobiSVD with full U and V

  /** A square n x n SVD: U and V are n x n and the n singular values are non-negative. */
  predicate SvdFits(s: Svd, n: nat)
  {
    IsShape(s.u, n, n) && IsShape(s.v, n, n) && |s.singular| == n &&
    forall i :: 0 <= i < n ==> s.singular[i] >= 0.0
  }

  /**
   * What the model assumes of the factorisations on a square n x n matrix: results are
   * n x n.
   */
  ghost predicate Shaped(f: Factorizations)
  {
    forall m: Matrix :: IsShape(m, m.rows, m.rows) ==>
      (f.llt(m).Some? ==> IsShape(f.llt(m).value, m.rows, m.rows)) &&
      (f.ldlt(m).Some? ==> IsShape(f.ldlt(m).value, m.rows, m.rows)) &&
      SvdFits(f.svd(m), m.rows)
  }

  /** svdInverse's cut-off: the largest singular value times the larger dimension times 1e-12. */
  function SvdTolerance(largest: real, rows: nat, cols: nat): (tol: real)
    ensures largest >= 0.0 ==> tol >= 0.0
  {
    largest * (if rows >= cols then rows else cols) as real * 0.000000000001
  }

  /** An inverted singular value: its reciprocal above the tolerance, exactly zero otherwise. */
  function ReciprocalOrZero(s: real, tol: real): real
    requires tol >= 0.0
  {
    if s > tol then 1.0 / s else 0.0
  }

  /** The inverted singular values. */
  function InvertedSingularValues(sv: seq<real>, tol: real): (inv: seq<real>)
    requires tol >= 0.0
    ensures |inv| == |sv|
  {
    seq(|sv|, i requires 0 <= i < |sv| => ReciprocalOrZero(sv[i], tol))
  }

  /** The kept singular values are inverted exactly; the dropped ones contribute nothing. */
  lemma InvertedSingularValuesKeep(sv: seq<real>, tol: real, i: nat)
    requires tol >= 0.0 && i < |sv|
    ensures var inv := InvertedSingularValues(sv, tol);
            (sv[i] > tol ==> sv[i] * inv[i] == 1.0) && (sv[i] <= tol ==> inv[i] == 0.0)
  {
  }

  /** The loop of svdInverse that fills the inverted singular values one by one. */
  method InvertSingularValues(sv: seq<real>, tol: real) returns (inv: seq<real>)
    requires tol >= 0.0
    ensures inv == InvertedSingularValues(sv, tol)
  {
    var a := new real[|sv|];
    for i := 0 to |sv|
      invariant forall k :: 0 <= k < i ==> a[k] == ReciprocalOrZero(sv[k], tol)
    {
      a[i] := if sv[i] > tol then 1.0 / sv[i] else 0.0;
    }
    inv := a[..];
  }

  /** A square matrix with the given diagonal. */
  function Diagonal(d: seq<real>): (m: Matrix)
    ensures IsShape(m, |d|, |d|)
  {
    Matrix(|d|, |d|, seq(|d|, i requires 0 <= i < |d| => seq(|d|, j requires 0 <= j < |d| => if i == j then d[i] else 0.0)))
  }

  /** svdInverse: V · diag(inverted singular values) · Uᵀ. */
  function SvdInverse(p: Matrix, s: Svd): (r: Matrix)
    requires IsShape(p, p.rows, p.rows) && p.rows > 0 && SvdFits(s, p.rows)
    ensures IsShape(r, p.rows, p.rows)
  {
    var tol := SvdTolerance(s.singular[0], p.rows, p.cols);
    Mul(Mul(s.v, Diagonal(InvertedSingularValues(s.singular, tol))), Transpose(s.u))
  }

  /**
   * choleskyInverse: the LLT inverse when LLT succeeds, else the LDLT inverse when LDLT
   * succeeds, else svdInverse. The empty matrix is its own inverse.
   */
  function CholeskyInverse(p: Matrix, f: Factorizations): (r: Matrix)
    requires IsShape(p, p.rows, p.rows) && Shaped(f)
    ensures IsShape(r, p.rows, p.rows)
  {
    if f.llt(p).Some? then f.llt(p).value
    else if f.ldlt(p).Some? then f.ldlt(p).value
    else if p.rows == 0 then p
    else SvdInverse(p, f.svd(p))
  }

  /**
   * The cascade consults a stage only when every earlier one failed: two sets of
   * factorisations that agree up to the first succeeding stage give the same inverse.
   */
  lemma CholeskyInverseCascade(p: Matrix, f: Factorizations, g: Factorizations)
    requires IsShape(p, p.rows, p.rows) && Shaped(f) && Shaped(g)
    requires f.llt(p) == g.llt(p)
    requires f.llt(p).None? ==> f.ldlt(p) == g.ldlt(p)
    requires f.llt(p).None? && f.ldlt(p).None? ==> f.svd(p) == g.svd(p)
    ensures CholeskyInverse(p, f) == CholeskyInverse(p, g)
    ensures f.llt(p).Some? ==> CholeskyInverse(p, f) == f.llt(p).value
    ensures f.llt(p).None? && f.ldlt(p).Some? ==> CholeskyInverse(p, f) == f.ldlt(p).value
  {
  }

  /**
   * ols: the QR least-squares solve when P asks for no weighting, otherwise
   * inv(AᵀPA) · AᵀPL with the supplied inverse.
   */
  function Ols(a: Matrix, l: Matrix, p: Matrix, inverse: Matrix -> Matrix, qr: (Matrix, Matrix) -> Matrix): (x: Matrix)
    requires Valid(a) && Valid(l) && Valid(p) && l.rows == a.rows && WeightFits(a, p)
    requires !Unweighted(p) ==> IsShape(inverse(NormalizedEquation(a, p)), a.cols, a.cols)
    ensures Unweighted(p) ==> x == qr(a, l)
    ensures !Unweighted(p) ==> IsShape(x, a.cols, l.cols)
  {
    if IsIdentity(p) || IsPlaceHolder(p) then qr(a, l)
    else Mul(inverse(NormalizedEquation(a, p)), Mul(Mul(Transpose(a), p), l))
  }

  /**
   * The weighted solve satisfies the normal equations whenever the inverse is a left
   * inverse of the normal matrix: (AᵀPA) · x = AᵀPL.
   */
  lemma OlsSolvesNormalEquations(a: Matrix, l: Matrix, p: Matrix, inverse: Matrix -> Matrix, qr: (Matrix, Matrix) -> Matrix)
    requires Valid(a) && Valid(l) && Valid(p) && l.rows == a.rows && WeightFits(a, p) && !Unweighted(p)
    requires IsShape(inverse(NormalizedEquation(a, p)), a.cols, a.cols)
    requires var n := NormalizedEquation(a, p);
             Mul(n, inverse(n)) == IdentityLike(a.cols, a.cols)
    ensures Mul(NormalizedEquation(a, p), Ols(a, l, p, inverse, qr)) == Mul(Mul(Transpose(a), p), l)
  {
    var n := NormalizedEquation(a, p);
    var b := Mul(Mul(Transpose(a), p), l);
    MulAssociative(n, inverse(n), b);
    MulIdentityLeft(IdentityLike(a.cols, a.cols), b);
  }

  // ---------------------------------------------------------------------------
  // Associativity

  /** Dotting u with the product b·c's column j equals dotting u·b with c's column j. */
  lemma {:induction false} DotMulColumn(u: seq<real>, b: Matrix, c: Matrix, j: nat)
    requires Valid(b) && Valid(c) && b.cols == c.rows && |u| == b.rows && j < c.cols
    ensures Dot(u, Column(Mul(b, c), j)) == Dot(RowTimes(u, b), Column(c, j))
    decreases b.rows
  {
    var n := b.rows;
    if n == 0 {
      DotZero(Column(c, j), RowTimes(u, b));
      DotSymmetric(RowTimes(u, b), Column(c, j));
      assert Dot(RowTimes(u, b), Column(c, j)) == 0.0;
    } else {
      var b' := Matrix(n - 1, b.cols, b.data[..n - 1]);
      var u' := u[..n - 1];
      DotMulColumn(u', b', c, j);
      DotMulColumnStep(u, b, b', c, j);
    }
  }

  /** The inductive step of DotMulColumn: the claim for b' extends to b. */
  lemma DotMulColumnStep(u: seq<real>, b: Matrix, b': Matrix, c: Matrix, j: nat)
    requires Valid(b) && Valid(c) && b.cols == c.rows && |u| == b.rows > 0 && j < c.cols
    requires b' == Matrix(b.rows - 1, b.cols, b.data[..b.rows - 1]) && Valid(b')
    requires Dot(u[..b.rows - 1], Column(Mul(b', c), j)) == Dot(RowTimes(u[..b.rows - 1], b'), Column(c, j))
    ensures Dot(u, Column(Mul(b, c), j)) == Dot(RowTimes(u, b), Column(c, j))
  {
    ProductColumnStep(u, b, b', c, j);
    RowTimesStep(u, b, b', c, j);
  }

  /** The left side of DotMulColumn, split at the last row of b. */
  lemma ProductColumnStep(u: seq<real>, b: Matrix, b': Matrix, c: Matrix, j: nat)
    requires Valid(b) && Valid(c) && b.cols == c.rows && |u| == b.rows > 0 && j < c.cols
    requires b' == Matrix(b.rows - 1, b.cols, b.data[..b.rows - 1])
    ensures Valid(b')
    ensures var m := b.rows - 1;
            Dot(u, Column(Mul(b, c), j)) == Dot(u[..m], Column(Mul(b', c), j)) + u[m] * Dot(b.data[m], Column(c, j))
  {
    var n := b.rows;
    var col := Column(Mul(b, c), j);
    MulColumnSplit(b, b', c, j);
    DotSnoc(u, col, n);
  }

  /** The right side of DotMulColumn, split at the last row of b. */
  lemma RowTimesStep(u: seq<real>, b: Matrix, b': Matrix, c: Matrix, j: nat)
    requires Valid(b) && Valid(c) && b.cols == c.rows && |u| == b.rows > 0 && j < c.cols
    requires b' == Matrix(b.rows - 1, b.cols, b.data[..b.rows - 1])
    ensures Valid(b')
    ensures var m := b.rows - 1;
            Dot(RowTimes(u, b), Column(c, j)) == Dot(RowTimes(u[..m], b'), Column(c, j)) + u[m] * Dot(b.data[m], Column(c, j))
  {
    var n := b.rows;
    var cj := Column(c, j);
    var head, last := RowTimes(u[..n - 1], b'), ScaledRow(u[n - 1], b.data[n - 1]);
    RowTimesSplit(u, b, b');
    DotLinear(head, last, cj);
    DotScaled(u[n - 1], b.data[n - 1], cj);
  }

  /** Dot unfolded once at the last entry. */
  lemma DotSnoc(u: seq<real>, w: seq<real>, n: nat)
    requires |u| == |w| == n && n > 0
    ensures Dot(u, w) == Dot(u[..n - 1], w[..n - 1]) + u[n - 1] * w[n - 1]
  {
  }

  /** Column j of b·c splits into column j of b'·c and the last row of b dotted with c's column j. */
  lemma MulColumnSplit(b: Matrix, b': Matrix, c: Matrix, j: nat)
    requires Valid(b) && Valid(c) && b.cols == c.rows && b.rows > 0 && j < c.cols
    requires b' == Matrix(b.rows - 1, b.cols, b.data[..b.rows - 1])
    ensures Valid(b')
    ensures var col := Column(Mul(b, c), j);
            col[..b.rows - 1] == Column(Mul(b', c), j) &&
            col[b.rows - 1] == Dot(b.data[b.rows - 1], Column(c, j))
  {
    var n := b.rows;
    forall i | 0 <= i < n - 1
      ensures Column(Mul(b, c), j)[i] == Column(Mul(b', c), j)[i]
    {
      assert b'.data[i] == b.data[i];
    }
  }

  /** The row vector u·b. */
  function RowTimes(u: seq<real>, b: Matrix): (r: seq<real>)
    requires Valid(b) && |u| == b.rows
    ensures |r| == b.cols
  {
    seq(b.cols, j requires 0 <= j < b.cols => Dot(u, Column(b, j)))
  }

  /** The row v scaled by s. */
  function ScaledRow(s: real, v: seq<real>): (r: seq<real>)
    ensures |r| == |v|
  {
    seq(|v|, k requires 0 <= k < |v| => s * v[k])
  }

  /** Entrywise sum of two rows. */
  function AddRows(v: seq<real>, w: seq<real>): (r: seq<real>)
    requires |v| == |w|
    ensures |r| == |v|
  {
    seq(|v|, k requires 0 <= k < |v| => v[k] + w[k])
  }

  /** u·b splits at the last row of b. */
  lemma RowTimesSplit(u: seq<real>, b: Matrix, b': Matrix)
    requires Valid(b) && |u| == b.rows && b.rows > 0
    requires b' == Matrix(b.rows - 1, b.cols, b.data[..b.rows - 1])
    ensures Valid(b')
    ensures RowTimes(u, b) == AddRows(RowTimes(u[..b.rows - 1], b'), ScaledRow(u[b.rows - 1], b.data[b.rows - 1]))
  {
    var n := b.rows;
    var r := AddRows(RowTimes(u[..n - 1], b'), ScaledRow(u[n - 1], b.data[n - 1]));
    forall j | 0 <= j < b.cols
      ensures RowTimes(u, b)[j] == r[j]
    {
      assert Column(b, j)[..n - 1] == Column(b', j);
      assert Column(b, j)[n - 1] == b.data[n - 1][j];
    }
  }

  /** The dot product is additive in its first argument. */
  lemma {:induction false} DotLinear(v: seq<real>, w: seq<real>, c: seq<real>)
    requires |v| == |w| == |c|
    ensures Dot(AddRows(v, w), c) == Dot(v, c) + Dot(w, c)
  {
    if |v| > 0 {
      var n := |v|;
      DotLinear(v[..n - 1], w[..n - 1], c[..n - 1]);
      assert AddRows(v, w)[..n - 1] == AddRows(v[..n - 1], w[..n - 1]);
    }
  }

  /** Scaling the first argument scales the dot product. */
  lemma {:induction false} DotScaled(s: real, v: seq<real>, c: seq<real>)
    requires |v| == |c|
    ensures Dot(ScaledRow(s, v), c) == s * Dot(v, c)
  {
    if |v| > 0 {
      var n := |v|;
      DotScaled(s, v[..n - 1], c[..n - 1]);
      forall k | 0 <= k < n - 1
        ensures ScaledRow(s, v)[k] == ScaledRow(s, v[..n - 1])[k]
      {
      }
      assert ScaledRow(s, v)[..n - 1] == ScaledRow(s, v[..n - 1]);
      ScaleDistributes(s, Dot(v[..n - 1], c[..n - 1]), v[n - 1], c[n - 1]);
    }
  }

  lemma ScaleDistributes(s: real, d: real, x: real, y: real)
    ensures s * d + (s * x) * y == s * (d + x * y)
  {
  }

  /** Matrix multiplication is associative. */
  lemma MulAssociative(a: Matrix, b: Matrix, c: Matrix)
    requires Valid(a) && Valid(b) && Valid(c) && a.cols == b.rows && b.cols == c.rows
    ensures Mul(Mul(a, b), c) == Mul(a, Mul(b, c))
  {
    var l, r := Mul(Mul(a, b), c), Mul(a, Mul(b, c));
    forall i | 0 <= i < a.rows
      ensures l.data[i] == r.data[i]
    {
      forall j | 0 <= j < c.cols
        ensures l.data[i][j] == r.data[i][j]
      {
        assert Mul(a, b).data[i] == RowTimes(a.data[i], b);
        DotMulColumn(a.data[i], b, c, j);
      }
    }
  }

  /** Multiplying on the left by an identity changes nothing. */
  lemma MulIdentityLeft(e: Matrix, m: Matrix)
    requires Valid(m) && IsShape(e, m.rows, m.rows) && IsIdentity(e)
    ensures Mul(e, m) == m
  {
    var p := Mul(e, m);
    forall i | 0 <= i < m.rows
      ensures p.data[i] == m.data[i]
    {
      forall j | 0 <= j < m.cols
        ensures p.data[i][j] == m.data[i][j]
      {
        DotSymmetric(e.data[i], Column(m, j));
        DotUnit(Column(m, j), e.data[i], i);
      }
    }
  }

  // ---------------------------------------------------------------------------
  // Coordinate transforms

  /** isValidCoordinate: three columns, one point per row. */
  predicate IsValidCoordinate(c: Matrix)
  {
    c.cols == 3
  }

  /** isValidRotationMatrix: 3 x 3. */
  predicate IsValidRotationMatrix(r: Matrix)
  {
    r.cols == 3 && r.rows == 3
  }

  /** internal::validateCoordinateMatrix: a shape error unless the matrix has three columns. */
  function ValidateCoordinateMatrix(c: Matrix): (o: Outcome)
    ensures o == Pass <==> IsValidCoordinate(c)
    ensures o.Fail? ==> o.error == MatrixShapeError
  {
    if !IsValidCoordinate(c) then Fail(MatrixShapeError) else Pass
  }

  /** internal::validateRotationMatrix: a shape error unless the matrix is 3 x 3. */
  function ValidateRotationMatrix(r: Matrix): (o: Outcome)
    ensures o == Pass <==> IsValidRotationMatrix(r)
    ensures o.Fail? ==> o.error == MatrixShapeError
  {
    if !IsValidRotationMatrix(r) then Fail(MatrixShapeError) else Pass
  }

  /** translate: every point less (x, y, z). */
  function Translate(c: Matrix, x: real, y: real, z: real): (r: Result<Matrix>)
    requires Valid(c)
    ensures r.Err? <==> !IsValidCoordinate(c)
    ensures r.Err? ==> r.error == MatrixShapeError
    ensures r.Ok? ==> IsShape(r.value, c.rows, 3) &&
                      forall i :: 0 <= i < c.rows ==>
                        r.value.data[i] == [c.data[i][0] - x, c.data[i][1] - y, c.data[i][2] - z]
  {
    if ValidateCoordinateMatrix(c).Fail? then Err(MatrixShapeError)
    else Ok(Matrix(c.rows, 3, seq(c.rows, i requires 0 <= i < c.rows =>
                                    [c.data[i][0] - x, c.data[i][1] - y, c.data[i][2] - z])))
  }

  /** Translating back by the opposite offset restores the points. */
  lemma TranslateRoundTrip(c: Matrix, x: real, y: real, z: real)
    requires Valid(c) && IsValidCoordinate(c)
    ensures Translate(Translate(c, x, y, z).value, -x, -y, -z) == Ok(c)
  {
    var t := Translate(Translate(c, x, y, z).value, -x, -y, -z).value;
    forall i | 0 <= i < c.rows
      ensures t.data[i] == c.data[i]
    {
      assert c.data[i] == [c.data[i][0], c.data[i][1], c.data[i][2]];
    }
    assert t.data == c.data;
  }

  /** rotateForward: coord · R, after both shape checks. */
  function RotateForward(c: Matrix, rot: Matrix): (r: Result<Matrix>)
    requires Valid(c) && Valid(rot)
    ensures r.Err? <==> !IsValidCoordinate(c) || !IsValidRotationMatrix(rot)
    ensures r.Err? ==> r.error == MatrixShapeError
    ensures r.Ok? ==> r.value == Mul(c, rot) && IsShape(r.value, c.rows, 3)
  {
    if ValidateCoordinateMatrix(c).Fail? then Err(MatrixShapeError)
    else if ValidateRotationMatrix(rot).Fail? then Err(MatrixShapeError)
    else Ok(Mul(c, rot))
  }

  /** rotateInverse: coord · Rᵀ, after both shape checks. */
  function RotateInverse(c: Matrix, rot: Matrix): (r: Result<Matrix>)
    requires Valid(c) && Valid(rot)
    ensures r.Err? <==> !IsValidCoordinate(c) || !IsValidRotationMatrix(rot)
    ensures r.Err? ==> r.error == MatrixShapeError
    ensures r.Ok? ==> r.value == Mul(c, Transpose(rot)) && IsShape(r.value, c.rows, 3)
  {
    if ValidateCoordinateMatrix(c).Fail? then Err(MatrixShapeError)
    else if ValidateRotationMatrix(rot).Fail? then Err(MatrixShapeError)
    else Ok(Mul(c, Transpose(rot)))
  }

  /** For an orthogonal R (R · Rᵀ = I) rotating back undoes rotating forward. */
  lemma RotateRoundTrip(c: Matrix, rot: Matrix)
    requires Valid(c) && IsValidCoordinate(c) && IsShape(rot, 3, 3)
    requires Mul(rot, Transpose(rot)) == IdentityLike(3, 3)
    ensures RotateInverse(RotateForward(c, rot).value, rot) == Ok(c)
  {
    MulAssociative(c, rot, Transpose(rot));
    MulIdentityRight(c, IdentityLike(3, 3));
  }

  /** scale: every coordinate times s, after the shape check. */
  function Scale(c: Matrix, s: real): (r: Result<Matrix>)
    requires Valid(c)
    ensures r.Err? <==> !IsValidCoordinate(c)
    ensures r.Ok? ==> r.value == Times(c, s)
  {
    if ValidateCoordinateMatrix(c).Fail? then Err(MatrixShapeError) else Ok(Times(c, s))
  }

  /** Scaling by s and then by 1/s restores the points. */
  lemma ScaleRoundTrip(c: Matrix, s: real)
    requires Valid(c) && IsValidCoordinate(c) && s != 0.0
    ensures Scale(Scale(c, s).value, 1.0 / s) == Ok(c)
  {
    var t := Scale(Scale(c, s).value, 1.0 / s).value;
    forall i | 0 <= i < c.rows
      ensures t.data[i] == c.data[i]
    {
      forall j | 0 <= j < 3
        ensures t.data[i][j] == c.data[i][j]
      {
        InverseScale(c.data[i][j], s);
      }
    }
    assert t.data == c.data;
  }

  lemma InverseScale(x: real, s: real)
    requires s != 0.0
    ensures x * s * (1.0 / s) == x
  {
  }

  // ---------------------------------------------------------------------------
  // Precision

  /** The weighted square sum of the residual column: vᵀv, or vᵀPv when P weights. */
  function SquareSum(v: Matrix, p: Matrix): real
    requires Valid(v) && Valid(p) && v.cols > 0 && WeightFits(v, p)
  {
    if IsPlaceHolder(p) || IsIdentity(p) then Mul(Transpose(v), v).data[0][0]
    else Mul(Mul(Transpose(v), p), v).data[0][0]
  }

  /** rmse: sqrt(square sum / (n - t)); no value when n = t makes the division infinite or NaN. */
  function Rmse(v: Matrix, n: int, t: int, p: Matrix, sqrt: real -> real): (r: Option<real>)
    requires Valid(v) && Valid(p) && v.cols > 0 && WeightFits(v, p)
    ensures r.None? <==> n == t
  {
    if n == t then None else Some(sqrt(SquareSum(v, p) / (n - t) as real))
  }

  /** sqrt returns the non-negative square root of x. */
  predicate IsSqrtOf(sqrt: real -> real, x: real)
  {
    sqrt(x) >= 0.0 && sqrt(x) * sqrt(x) == x
  }

  /**
   * rmse² · (n − t) is the square sum: vᵀv for unweighted residuals, which is never
   * negative, so with more observations than unknowns the square root exists.
   */
  lemma RmseSquared(v: Matrix, n: int, t: int, p: Matrix, sqrt: real -> real)
    requires Valid(v) && Valid(p) && v.cols > 0 && WeightFits(v, p) && n != t
    requires IsSqrtOf(sqrt, SquareSum(v, p) / (n - t) as real)
    ensures var r := Rmse(v, n, t, p, sqrt).value;
            r >= 0.0 && r * r * (n - t) as real == SquareSum(v, p)
  {
  }

  /** The unweighted square sum is the sum of the squared residuals of the first column. */
  lemma SquareSumUnweighted(v: Matrix, p: Matrix)
    requires Valid(v) && Valid(p) && v.cols > 0 && Unweighted(p)
    ensures SquareSum(v, p) == Dot(Column(v, 0), Column(v, 0)) && SquareSum(v, p) >= 0.0
  {
    assert Transpose(v).data[0] == Column(v, 0);
    DotSelfNonnegative(Column(v, 0));
  }

  /** errorMatrix: rmse times the entrywise square root of N. */
  function ErrorMatrix(rmse: real, n: Matrix, sqrt: real -> real): (e: Matrix)
    requires Valid(n)
    ensures IsShape(e, n.rows, n.cols)
  {
    Matrix(n.rows, n.cols,
      seq(n.rows, i requires 0 <= i < n.rows => seq(n.cols, j requires 0 <= j < n.cols => rmse * sqrt(n.data[i][j]))))
  }

  /** Each entry of the error matrix squares to rmse² times the entry of N it comes from. */
  lemma ErrorMatrixSquares(rmse: real, n: Matrix, sqrt: real -> real, i: nat, j: nat)
    requires Valid(n) && i < n.rows && j < n.cols && IsSqrtOf(sqrt, n.data[i][j])
    ensures var e := ErrorMatrix(rmse, n, sqrt).data[i][j];
            e * e == rmse * rmse * n.data[i][j]
  {
    var s := sqrt(n.data[i][j]);
    assert (rmse * s) * (rmse * s) == rmse * rmse * (s * s);
  }
}

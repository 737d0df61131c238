/** Exact real-number helpers standing in for <cmath> calls whose IEEE results are exact. */
module Reals {

  function Abs(x: real): (r: real)
    ensures r >= 0.0 && (r == x || r == -x)
  {
    if x < 0.0 then -x else x
  }

  /** Conversion of a double to an integer type: truncation toward zero. */
  function Trunc(x: real): (k: int)
    ensures x >= 0.0 ==> 0 <= k && k as real <= x < k as real + 1.0
    ensures x < 0.0 ==> k <= 0 && k as real - 1.0 < x <= k as real
  {
    if x >= 0.0 then x.Floor else -((-x).Floor)
  }

  /** std::fmod, which IEEE 754 defines exactly: x - trunc(x / y) * y. */
  function Fmod(x: real, y: real): real
    requires y != 0.0
  {
    x - Trunc(x / y) as real * y
  }

  /** 10 to a natural power. */
  function Pow10(n: nat): (p: nat)
    ensures p >= 1
  {
    if n == 0 then 1 else 10 * Pow10(n - 1)
  }

  /** Whether d is a whole multiple of y. */
  predicate IsMultiple(d: real, y: real)
    requires y != 0.0
  {
    (d / y).Floor as real == d / y
  }

  // Small steps of non-linear arithmetic that the solver does not find alone.

  lemma MulNonneg(a: real, b: real)
    requires a >= 0.0 && b >= 0.0
    ensures a * b >= 0.0
  {
  }

  lemma MulPos(a: real, b: real)
    requires a > 0.0 && b > 0.0
    ensures a * b > 0.0
  {
  }

  lemma DivMul(x: real, y: real)
    requires y != 0.0
    ensures (x / y) * y == x
  {
  }

  lemma MulDiv(x: real, y: real)
    requires y != 0.0
    ensures (x * y) / y == x
  {
  }

  lemma CastMul(a: int, b: int)
    ensures (a * b) as real == a as real * b as real
  {
  }

  lemma DivNonneg(x: real, y: real)
    requires x >= 0.0 && y > 0.0
    ensures x / y >= 0.0
  {
  }

  lemma Distrib(a: real, b: real, c: real)
    ensures (a - b) * c == a * c - b * c
    ensures (a + b) * c == a * c + b * c
  {
  }

  lemma DivDistrib(a: real, b: real, y: real)
    requires y != 0.0
    ensures (a - b) / y == a / y - b / y
    ensures (a + b) / y == a / y + b / y
  {
  }

  /** The floor of a quotient brackets the dividend between consecutive multiples of a positive divisor. */
  lemma FloorDivBounds(x: real, y: real)
    requires y > 0.0
    ensures (x / y).Floor as real * y <= x < (x / y).Floor as real * y + y
  {
    var q := x / y;
    var kr := q.Floor as real;
    DivMul(x, y);
    MulNonneg(q - kr, y);
    MulPos(kr + 1.0 - q, y);
    Distrib(q, kr, y);
    assert (q - kr) * y == x - kr * y;
    var z := kr + 1.0 - q;
    assert z * y == kr * y + y - x by {
      Distrib(kr + 1.0, q, y);
      Distrib(kr, 1.0, y);
      assert (kr + 1.0) * y == kr * y + y;
    }
    assert z * y > 0.0;
    assert kr * y <= x;
    assert x < kr * y + y;
  }

  /** The fmod of a non-negative value by a positive one lies in [0, y). */
  lemma FmodRange(x: real, y: real)
    requires x >= 0.0 && y > 0.0
    ensures 0.0 <= Fmod(x, y) < y
  {
    DivNonneg(x, y);
    assert Trunc(x / y) == (x / y).Floor;
    FloorDivBounds(x, y);
  }

  /** fmod removes a whole multiple of the divisor, and for non-negative operands leaves a value in [0, y). */
  lemma FmodDecomposition(x: real, y: real)
    requires y != 0.0
    ensures IsMultiple(x - Fmod(x, y), y)
    ensures x >= 0.0 && y > 0.0 ==> 0.0 <= Fmod(x, y) < y
  {
    var k := Trunc(x / y);
    assert x - Fmod(x, y) == k as real * y;
    MultipleOfInt(k, y);
    if x >= 0.0 && y > 0.0 {
      FmodRange(x, y);
    }
  }

  /** A whole number of divisors is a multiple. */
  lemma MultipleOfInt(k: int, y: real)
    requires y != 0.0
    ensures IsMultiple(k as real * y, y)
  {
    MulDiv(k as real, y);
  }

  /** A multiple is a whole number of divisors. */
  lemma MultipleIsInt(d: real, y: real)
    requires y != 0.0 && IsMultiple(d, y)
    ensures d == (d / y).Floor as real * y
  {
    DivMul(d, y);
  }

  /** Multiples are closed under sums and differences. */
  lemma MultipleSumDiff(a: real, b: real, y: real)
    requires y != 0.0 && IsMultiple(a, y) && IsMultiple(b, y)
    ensures IsMultiple(a - b, y) && IsMultiple(a + b, y)
  {
    var ka := (a / y).Floor;
    var kb := (b / y).Floor;
    assert (a - b) / y == (ka - kb) as real && (a + b) / y == (ka + kb) as real by {
      DivDistrib(a, b, y);
    }
    IntFloor(ka - kb);
    IntFloor(ka + kb);
  }

  /** A whole number is its own floor. */
  lemma IntFloor(k: int)
    ensures (k as real).Floor == k
  {
  }

  /** Adding or removing one divisor moves the floor of the quotient by one. */
  lemma QuotientShift(d: real, y: real)
    requires y != 0.0
    ensures ((d - y) / y).Floor == (d / y).Floor - 1
    ensures ((d + y) / y).Floor == (d / y).Floor + 1
  {
    DivDistrib(d, y, y);
    assert y / y == 1.0;
  }

  /** Shifting by one divisor keeps a value a multiple, in both directions. */
  lemma MultipleShift(d: real, y: real)
    requires y != 0.0
    ensures IsMultiple(d, y) <==> IsMultiple(d - y, y)
    ensures IsMultiple(d, y) <==> IsMultiple(d + y, y)
  {
    DivDistrib(d, y, y);
    var q := d / y;
    assert y / y == 1.0;
    assert (d - y) / y == q - 1.0;
    assert (d + y) / y == q + 1.0;
    assert (q - 1.0).Floor == q.Floor - 1;
    assert (q + 1.0).Floor == q.Floor + 1;
  }

  /** The only multiples of a positive y within [-y, y] are -y, 0 and y. */
  lemma MultipleInRange(d: real, y: real)
    requires y > 0.0 && IsMultiple(d, y) && -y <= d <= y
    ensures d == -y || d == 0.0 || d == y
  {
    var k := (d / y).Floor;
    MultipleIsInt(d, y);
    var kr := k as real;
    if k >= 2 {
      MulNonneg(kr - 2.0, y);
      Distrib(kr, 2.0, y);
      assert false;
    } else if k <= -2 {
      MulNonneg(-kr - 2.0, y);
      Distrib(-kr, 2.0, y);
      assert false;
    } else if k == -1 {
      assert kr * y == -y;
    } else if k == 0 {
      assert kr * y == 0.0;
    } else {
      assert kr * y == y;
    }
  }
}

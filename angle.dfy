/**
 * Angles held in radians: unit converters, construction from degrees, minutes and
 * seconds, arithmetic and comparison, the two normalisations (norm and std) and the
 * numeric part of parsing an angle from text.
 */
module Angles {
  import opened Wrappers
  import opened Reals

  /** std::numbers::pi as the double literal it rounds to. */
  const PI: real := 3.141592653589793
  const TWO_PI: real := 2.0 * PI

  const DEG2RAD: real := PI / 180.0
  const RAD2DEG: real := 180.0 / PI
  const MIN2RAD: real := DEG2RAD / 60.0
  const RAD2MIN: real := RAD2DEG * 60.0
  const SEC2RAD: real := DEG2RAD / 3600.0
  const RAD2SEC: real := RAD2DEG * 3600.0

  function Sec2Rad(s: real): real { s * SEC2RAD }
  function Min2Rad(m: real): real { m * MIN2RAD }
  function Deg2Rad(d: real): real { d * DEG2RAD }
  function Rad2Sec(r: real): real { r * RAD2SEC }
  function Rad2Min(r: real): real { r * RAD2MIN }
  function Rad2Deg(r: real): real { r * RAD2DEG }

  /** Each converter undoes its partner, and the three angular units nest as 1 deg = 60 min = 3600 sec. */
  lemma ConvertersRoundTrip(x: real)
    ensures Rad2Deg(Deg2Rad(x)) == x && Deg2Rad(Rad2Deg(x)) == x
    ensures Rad2Min(Min2Rad(x)) == x && Min2Rad(Rad2Min(x)) == x
    ensures Rad2Sec(Sec2Rad(x)) == x && Sec2Rad(Rad2Sec(x)) == x
    ensures Min2Rad(60.0 * x) == Deg2Rad(x) && Sec2Rad(3600.0 * x) == Deg2Rad(x)
    ensures Deg2Rad(180.0) == PI && Rad2Deg(PI) == 180.0
  {
  }

  /** An angle, stored as its value in radians. */
  datatype Angle = Angle(radian: real)

  function FromSeconds(s: real): Angle { Angle(Sec2Rad(s)) }
  function FromMinutes(m: real): Angle { Angle(Min2Rad(m)) }
  function FromDegrees(d: real): Angle { Angle(Deg2Rad(d)) }
  function FromRadian(r: real): Angle { Angle(r) }

  function ToSeconds(a: Angle): real { Rad2Sec(a.radian) }
  function ToMinutes(a: Angle): real { Rad2Min(a.radian) }
  function ToDegrees(a: Angle): real { Rad2Deg(a.radian) }
  function ToRadian(a: Angle): real { a.radian }

  /** Every factory is undone by the matching accessor. */
  lemma FactoriesRoundTrip(x: real)
    ensures ToSeconds(FromSeconds(x)) == x && ToMinutes(FromMinutes(x)) == x
    ensures ToDegrees(FromDegrees(x)) == x && ToRadian(FromRadian(x)) == x
  {
    ConvertersRoundTrip(x);
  }

  /**
   * An angle from degrees, minutes and seconds: the magnitudes of the three parts are
   * summed and the sign is given by a separate flag.
   */
  function FromDms(d: real, m: real, s: real, negative: bool): (a: Angle)
    ensures negative ==> a.radian <= 0.0
    ensures !negative ==> a.radian >= 0.0
    ensures Abs(a.radian) == Deg2Rad(Abs(d)) + Min2Rad(Abs(m)) + Sec2Rad(Abs(s))
  {
    var magnitude := Deg2Rad(Abs(d)) + Min2Rad(Abs(m)) + Sec2Rad(Abs(s));
    Angle(magnitude * (if negative then -1.0 else 1.0))
  }

  /** The whole degrees of an angle, without sign. */
  function Degrees(a: Angle): nat
  {
    var k := Trunc(Rad2Deg(a.radian));
    if k < 0 then -k else k
  }

  /** The whole minutes left over after the whole degrees, without sign. */
  function Minutes(a: Angle): nat
  {
    var k := Trunc(Fmod(Rad2Sec(a.radian), 3600.0) / 60.0);
    if k < 0 then -k else k
  }

  /** The seconds left over after the whole minutes, without sign. */
  function Seconds(a: Angle): real
  {
    Abs(Fmod(Rad2Sec(a.radian), 60.0))
  }

  /** Splitting a non-negative count of seconds into whole degrees, whole minutes and seconds loses nothing. */
  lemma SplitSeconds(total: real)
    requires total >= 0.0
    ensures var d := Trunc(total / 3600.0);
            var m := Trunc(Fmod(total, 3600.0) / 60.0);
            0 <= m < 60 && 0.0 <= Fmod(total, 60.0) < 60.0 &&
            3600.0 * d as real + 60.0 * m as real + Fmod(total, 60.0) == total
  {
    var d := Trunc(total / 3600.0);
    FmodRange(total, 3600.0);
    FmodRange(total, 60.0);
    var rest := Fmod(total, 3600.0);
    assert rest == total - d as real * 3600.0;
    var m := Trunc(rest / 60.0);
    assert rest / 60.0 == total / 60.0 - (60 * d) as real;
    assert Trunc(total / 60.0) == m + 60 * d;
  }

  /** fmod and truncation are odd in their first argument. */
  lemma FmodTruncOdd(x: real, y: real)
    requires y > 0.0
    ensures Trunc(-x / y) == -Trunc(x / y)
    ensures Fmod(-x, y) == -Fmod(x, y)
  {
    var q := x / y;
    assert -x / y == -q;
    if q > 0.0 {
      assert Trunc(-q) == -(q.Floor);
    } else if q < 0.0 {
      assert Trunc(q) == -((-q).Floor);
    }
    assert Trunc(-q) == -Trunc(q);
    assert Fmod(-x, y) == -x + Trunc(q) as real * y;
  }

  /** Degrees, minutes and seconds expressed in radians through a count of seconds. */
  lemma UnitsInSeconds(d: real, m: real, s: real)
    ensures Deg2Rad(d) + Min2Rad(m) + Sec2Rad(s) == Sec2Rad(3600.0 * d + 60.0 * m + s)
  {
    ConvertersRoundTrip(d);
    ConvertersRoundTrip(m);
    assert Min2Rad(m) == Sec2Rad(60.0 * m);
  }

  /** The magnitude parts of an angle, taken from its count of seconds. */
  lemma PartsFromSeconds(a: Angle)
    ensures var t := Abs(Rad2Sec(a.radian));
            Degrees(a) == Trunc(t / 3600.0) &&
            Minutes(a) == Trunc(Fmod(t, 3600.0) / 60.0) &&
            Seconds(a) == Fmod(t, 60.0)
  {
    var total := Rad2Sec(a.radian);
    ConvertersRoundTrip(a.radian);
    assert Rad2Deg(a.radian) == total / 3600.0;
    var t := Abs(total);
    FmodRange(t, 3600.0);
    FmodRange(t, 60.0);
    if total < 0.0 {
      FmodTruncOdd(t, 3600.0);
      FmodTruncOdd(t, 60.0);
      FmodTruncOdd(Fmod(t, 3600.0), 60.0);
      assert total == -t;
      assert Fmod(total, 3600.0) / 60.0 == -Fmod(t, 3600.0) / 60.0;
    }
  }

  /** The seconds of an angle's magnitude, converted back, give that magnitude. */
  lemma SecondsOfMagnitude(a: Angle)
    ensures Sec2Rad(Abs(Rad2Sec(a.radian))) == Abs(a.radian)
  {
    ConvertersRoundTrip(a.radian);
    if a.radian < 0.0 {
      ConvertersRoundTrip(-a.radian);
      assert Rad2Sec(-a.radian) == -Rad2Sec(a.radian);
    }
  }

  /** The three parts of an angle, summed in radians, give the angle's magnitude in seconds. */
  lemma PartsSumToSeconds(a: Angle)
    ensures Deg2Rad(Degrees(a) as real) + Min2Rad(Minutes(a) as real) + Sec2Rad(Seconds(a))
         == Sec2Rad(Abs(Rad2Sec(a.radian)))
  {
    var t := Abs(Rad2Sec(a.radian));
    PartsFromSeconds(a);
    SplitSeconds(t);
    UnitsInSeconds(Degrees(a) as real, Minutes(a) as real, Seconds(a));
  }

  /** The degrees, minutes and seconds of an angle rebuild the angle exactly (toDMS then fromDMS). */
  lemma DmsRoundTrip(a: Angle)
    ensures FromDms(Degrees(a) as real, Minutes(a) as real, Seconds(a), a.radian < 0.0) == a
  {
    var d, m, sec := Degrees(a) as real, Minutes(a) as real, Seconds(a);
    PartsSumToSeconds(a);
    SecondsOfMagnitude(a);
    assert Abs(d) == d && Abs(m) == m && Abs(sec) == sec;
    var magnitude := Deg2Rad(d) + Min2Rad(m) + Sec2Rad(sec);
    assert magnitude == Abs(a.radian);
  }

  function Add(a: Angle, b: Angle): Angle { Angle(a.radian + b.radian) }
  function Sub(a: Angle, b: Angle): Angle { Angle(a.radian - b.radian) }
  function Neg(a: Angle): Angle { Angle(-a.radian) }
  function Scale(a: Angle, k: real): Angle { Angle(a.radian * k) }

  /** Angles form a group under addition with negation as inverse, and scaling distributes over it. */
  lemma AlgebraLaws(a: Angle, b: Angle, k: real)
    ensures Sub(Add(a, b), b) == a
    ensures Add(a, Neg(a)) == Zero()
    ensures Sub(a, b) == Add(a, Neg(b))
    ensures Add(a, b) == Add(b, a)
    ensures Scale(Add(a, b), k) == Add(Scale(a, k), Scale(b, k))
  {
  }

  /** The angle divided by a scalar; None where the double division would give infinity or NaN. */
  function DivScalar(a: Angle, k: real): (r: Option<Angle>)
    ensures r.Some? <==> k != 0.0
    ensures r.Some? ==> Scale(r.value, k) == a
  {
    if k == 0.0 then None else Some(Angle(a.radian / k))
  }

  /** A scalar "divided by" an angle: the library returns the angle divided by the scalar, as `DivScalar` does. */
  function ScalarDiv(k: real, a: Angle): (r: Option<Angle>)
    ensures r.Some? <==> k != 0.0
    ensures r.Some? ==> Scale(r.value, k) == a
  {
    if k == 0.0 then None else Some(Angle(a.radian / k))
  }

  /** The ratio of two angles; None for a zero divisor. */
  function Ratio(a: Angle, b: Angle): (r: Option<real>)
    ensures r.Some? <==> b.radian != 0.0
    ensures r.Some? ==> Scale(b, r.value) == a
  {
    if b.radian == 0.0 then None else Some(a.radian / b.radian)
  }

  /** The fmod remainder of two angles; None for a zero divisor. */
  function Mod(a: Angle, b: Angle): (r: Option<Angle>)
    ensures r.Some? <==> b.radian != 0.0
    ensures r.Some? ==> IsMultiple(a.radian - r.value.radian, b.radian)
    ensures r.Some? && a.radian >= 0.0 && b.radian > 0.0 ==> 0.0 <= r.value.radian < b.radian
  {
    if b.radian == 0.0 then None
    else
      FmodDecomposition(a.radian, b.radian);
      Some(Angle(Fmod(a.radian, b.radian)))
  }

  function AbsAngle(a: Angle): Angle { Angle(Abs(a.radian)) }

  /** Whether two angles differ by less than the magnitude of the threshold. */
  predicate WithinAbs(a: Angle, b: Angle, threshold: real)
  {
    Abs(a.radian - b.radian) < Abs(threshold)
  }

  predicate EqApprox(a: Angle, b: Angle, threshold: real)
  {
    WithinAbs(a, b, threshold)
  }

  /** Compares magnitudes; the threshold argument is accepted and ignored. */
  predicate LtAbs(a: Angle, b: Angle, threshold: real)
  {
    Abs(a.radian) < Abs(b.radian)
  }

  /** Compares magnitudes; the threshold argument is accepted and ignored. */
  predicate GtAbs(a: Angle, b: Angle, threshold: real)
  {
    Abs(a.radian) > Abs(b.radian)
  }

  predicate Lt(a: Angle, b: Angle) { a.radian < b.radian }
  predicate Gt(a: Angle, b: Angle) { a.radian > b.radian }

  /** The comparisons are mirror images of each other, approximate equality is symmetric and the threshold of the magnitude comparisons has no effect. */
  lemma ComparisonLaws(a: Angle, b: Angle, t: real, t': real)
    ensures EqApprox(a, b, t) <==> EqApprox(b, a, t)
    ensures EqApprox(a, b, t) <==> EqApprox(a, b, -t)
    ensures t != 0.0 ==> EqApprox(a, a, t)
    ensures LtAbs(a, b, t) <==> GtAbs(b, a, t')
    ensures LtAbs(a, b, t) <==> LtAbs(Neg(a), AbsAngle(b), t')
    ensures Lt(a, b) <==> Gt(b, a)
    ensures !(Lt(a, b) && Gt(a, b))
  {
  }

  function Zero(): Angle { Angle(0.0) }
  function SinglePi(): Angle { Angle(PI) }
  function DoublePi(): Angle { Angle(TWO_PI) }

  /** Whether a difference of radians is a whole number of turns. */
  predicate IsWholeTurns(d: real)
  {
    IsMultiple(d, TWO_PI)
  }

  /** The magnitude of the angle reduced modulo a full turn into [0, 2 pi). */
  function Norm(a: Angle): (r: Angle)
    ensures 0.0 <= r.radian < TWO_PI
    ensures IsWholeTurns(Abs(a.radian) - r.radian)
    ensures 0.0 <= Abs(a.radian) < TWO_PI ==> r.radian == Abs(a.radian)
  {
    FmodDecomposition(Abs(a.radian), TWO_PI);
    Angle(Fmod(Abs(a.radian), TWO_PI))
  }

  /** The symmetric normalisation is declared but always throws Not_Implement_Error. */
  function NormSym(a: Angle): (r: Result<Angle>)
    ensures r == Err(NotImplemented)
  {
    Err(NotImplemented)
  }

  /**
   * What `std` promises about its result s for an input of r radians: s lies in
   * [0, 2 pi], differs from r by whole turns, leaves r alone when already there, and
   * comes from above (never 0) for large r and from below (never 2 pi) for negative r.
   */
  predicate IsStdOf(s: real, r: real)
  {
    0.0 <= s <= TWO_PI && IsWholeTurns(s - r) &&
    (0.0 <= r <= TWO_PI ==> s == r) &&
    (r > TWO_PI ==> s > 0.0) &&
    (r < 0.0 ==> s < TWO_PI)
  }

  /** Closed form of `std`. */
  function StdValue(a: Angle): (s: Angle)
    ensures IsStdOf(s.radian, a.radian)
  {
    var r := a.radian;
    if r > TWO_PI then
      var m := (-r / TWO_PI).Floor;
      StdAbove(r, m);
      Angle(r + m as real * TWO_PI + TWO_PI)
    else if r < 0.0 then
      var k := (r / TWO_PI).Floor;
      StdBelow(r, k);
      Angle(r - k as real * TWO_PI)
    else a
  }

  lemma StdAbove(r: real, m: int)
    requires r > TWO_PI && m == (-r / TWO_PI).Floor
    ensures IsStdOf(r + m as real * TWO_PI + TWO_PI, r)
  {
    FloorDivBounds(-r, TWO_PI);
    var s := r + m as real * TWO_PI + TWO_PI;
    MultipleOfInt(m + 1, TWO_PI);
    Distrib(m as real, -1.0, TWO_PI);
    assert s - r == (m + 1) as real * TWO_PI;
  }

  lemma StdBelow(r: real, k: int)
    requires r < 0.0 && k == (r / TWO_PI).Floor
    ensures IsStdOf(r - k as real * TWO_PI, r)
  {
    FloorDivBounds(r, TWO_PI);
    MultipleOfInt(-k, TWO_PI);
    assert (-k) as real * TWO_PI == -(k as real * TWO_PI);
  }

  /** At most one value satisfies `IsStdOf` for a given input. */
  lemma StdUnique(s1: real, s2: real, r: real)
    requires IsStdOf(s1, r) && IsStdOf(s2, r)
    ensures s1 == s2
  {
    MultipleSumDiff(s1 - r, s2 - r, TWO_PI);
    assert (s1 - r) - (s2 - r) == s1 - s2;
    MultipleInRange(s1 - s2, TWO_PI);
  }

  /**
   * Brings the angle into [0, 2 pi] by repeatedly subtracting, then adding, a full turn.
   */
  method Std(a: Angle) returns (s: Angle)
    ensures IsStdOf(s.radian, a.radian)
    ensures s == StdValue(a)
  {
    var rad := a.radian;
    MultipleOfInt(0, TWO_PI);
    while rad > TWO_PI
      invariant IsWholeTurns(rad - a.radian)
      invariant a.radian > TWO_PI ==> rad > 0.0
      invariant a.radian <= TWO_PI ==> rad == a.radian
      decreases (rad / TWO_PI).Floor
    {
      DivNonneg(rad, TWO_PI);
      QuotientShift(rad, TWO_PI);
      MultipleShift(rad - a.radian, TWO_PI);
      rad := rad - TWO_PI;
    }
    while rad < 0.0
      invariant IsWholeTurns(rad - a.radian)
      invariant rad <= TWO_PI
      invariant 0.0 <= a.radian <= TWO_PI ==> rad == a.radian
      invariant a.radian > TWO_PI ==> rad > 0.0
      invariant a.radian < 0.0 ==> rad < TWO_PI
      decreases (-rad / TWO_PI).Floor
    {
      DivNonneg(-rad, TWO_PI);
      QuotientShift(-rad, TWO_PI);
      MultipleShift(rad - a.radian, TWO_PI);
      rad := rad + TWO_PI;
    }
    s := Angle(rad);
    StdUnique(rad, StdValue(a).radian, a.radian);
  }

  /** `std` is idempotent, and agrees with `norm` on non-negative angles that are not whole turns. */
  lemma StdProperties(a: Angle)
    ensures StdValue(StdValue(a)) == StdValue(a)
    ensures a.radian >= 0.0 && !IsWholeTurns(a.radian) ==> StdValue(a) == Norm(a)
  {
    var s := StdValue(a);
    if a.radian >= 0.0 && !IsWholeTurns(a.radian) {
      var n := Norm(a).radian;
      MultipleOfInt(0, TWO_PI);
      MultipleSumDiff(0.0, a.radian - n, TWO_PI);
      assert 0.0 - (a.radian - n) == n - a.radian;
      if n != 0.0 {
        if a.radian == TWO_PI {
          MultipleOfInt(1, TWO_PI);
        }
        assert IsStdOf(n, a.radian);
        StdUnique(n, s.radian, a.radian);
      }
    }
  }

  // ---------------------------------------------------------------------------
  // dms2rad: degrees, minutes and seconds from a sequence of up to three parts.

  /** The converter applied to the part at a given position. */
  function ConverterAt(i: nat, x: real): real
  {
    if i == 0 then Deg2Rad(x) else if i == 1 then Min2Rad(x) else Sec2Rad(x)
  }

  /** The sum of the converted magnitudes of the parts, in order. */
  function DmsMagnitude(parts: seq<real>): real
  {
    if |parts| == 0 then 0.0
    else DmsMagnitude(parts[..|parts| - 1]) + ConverterAt(|parts| - 1, Abs(parts[|parts| - 1]))
  }

  /** The value of a parts sequence: its magnitude with the sign of its first part. */
  function DmsValue(parts: seq<real>): real
  {
    if |parts| == 0 then 0.0
    else if parts[0] < 0.0 then -DmsMagnitude(parts)
    else DmsMagnitude(parts)
  }

  /**
   * Converts up to three parts (degrees, minutes, seconds) to radians; more than three
   * parts is a range error and no parts give zero.
   */
  method DmsToRad(parts: seq<real>) returns (r: Result<real>)
    ensures |parts| > 3 <==> r == Err(RangeError)
    ensures |parts| <= 3 ==> r == Ok(DmsValue(parts))
  {
    if |parts| > 3 {
      return Err(RangeError);
    }
    if |parts| == 0 {
      return Ok(0.0);
    }
    var rad := 0.0;
    var negative := parts[0] < 0.0;
    var k := 0;
    while k < |parts|
      invariant 0 <= k <= |parts|
      invariant rad == DmsMagnitude(parts[..k])
    {
      assert parts[..k + 1][..k] == parts[..k];
      rad := rad + ConverterAt(k, Abs(parts[k]));
      k := k + 1;
    }
    assert parts[..k] == parts;
    return Ok(rad * (if negative then -1.0 else 1.0));
  }

  /** The three-argument overload and the list constructor agree with `FromDms` signed by the first part. */
  lemma DmsValueAgreesWithFromDms(d: real, m: real, s: real)
    ensures DmsValue([d, m, s]) == FromDms(d, m, s, d < 0.0).radian
    ensures DmsValue([d]) == Deg2Rad(d)
    ensures DmsValue([d, m]) == FromDms(d, m, 0.0, d < 0.0).radian
  {
    assert [d, m, s][..2] == [d, m];
    assert [d, m][..1] == [d];
    assert [d][..0] == [];
    assert DmsMagnitude([d]) == Deg2Rad(Abs(d));
    assert DmsMagnitude([d, m]) == Deg2Rad(Abs(d)) + Min2Rad(Abs(m));
    assert DmsMagnitude([d, m, s]) == Deg2Rad(Abs(d)) + Min2Rad(Abs(m)) + Sec2Rad(Abs(s));
    assert Sec2Rad(Abs(0.0)) == 0.0;
  }

  /** Only the first part carries the sign: the signs of the later parts are ignored. */
  lemma {:induction false} DmsMagnitudeIgnoresSigns(parts: seq<real>, other: seq<real>)
    requires |parts| == |other|
    requires forall i :: 0 <= i < |parts| ==> Abs(parts[i]) == Abs(other[i])
    ensures DmsMagnitude(parts) == DmsMagnitude(other)
  {
    if |parts| > 0 {
      DmsMagnitudeIgnoresSigns(parts[..|parts| - 1], other[..|other| - 1]);
    }
  }

  // ---------------------------------------------------------------------------
  // fromString, after the regular-expression match.

  predicate IsDigits(s: string)
  {
    |s| > 0 && forall i :: 0 <= i < |s| ==> '0' <= s[i] <= '9'
  }

  /** The value of a decimal digit string, most significant digit first. */
  function DigitsValue(s: string): nat
    requires IsDigits(s) || |s| == 0
  {
    if |s| == 0 then 0
    else DigitsValue(s[..|s| - 1]) * 10 + (s[|s| - 1] as int - '0' as int)
  }

  /** Reading a concatenation of digit strings shifts the first one left by the length of the second. */
  lemma {:induction false} DigitsValueAppend(a: string, b: string)
    requires IsDigits(a) && IsDigits(b)
    ensures IsDigits(a + b)
    ensures DigitsValue(a + b) == DigitsValue(a) * Pow10(|b|) + DigitsValue(b)
    decreases |b|
  {
    var ab := a + b;
    var init := b[..|b| - 1];
    var last := b[|b| - 1] as int - '0' as int;
    assert ab[..|ab| - 1] == a + init;
    assert ab[|ab| - 1] == b[|b| - 1];
    assert DigitsValue(b) == DigitsValue(init) * 10 + last;
    assert Pow10(|b|) == 10 * Pow10(|init|);
    if |b| == 1 {
      assert init == [];
      assert a + init == a;
      assert DigitsValue(init) == 0;
    } else {
      DigitsValueAppend(a, init);
      ShiftDigit(DigitsValue(a), DigitsValue(init), Pow10(|init|), last);
    }
  }

  /** Appending a digit to a shifted prefix: the shift grows by one decimal place. */
  lemma ShiftDigit(va: int, vi: int, p: int, last: int)
    ensures (va * p + vi) * 10 + last == va * (10 * p) + (vi * 10 + last)
  {
  }

  /** The largest value of a 32-bit `int`. */
  const IntMax: nat := 2147483647

  /** A digit string of n digits is worth less than 10^n. */
  lemma {:induction false} DigitsValueBelow(s: string)
    requires IsDigits(s) || |s| == 0
    ensures DigitsValue(s) < Pow10(|s|)
  {
    if |s| > 0 {
      assert IsDigits(s[..|s| - 1]) || |s[..|s| - 1]| == 0;
      DigitsValueBelow(s[..|s| - 1]);
    }
  }

  /**
   * std::stoi on the text a degree or minute group captures: the value of a digit string,
   * out_of_range when it does not fit an `int`, and an invalid argument for anything else.
   */
  function ParseNumber(s: string): (r: Result<nat>)
    ensures r.Ok? <==> IsDigits(s) && DigitsValue(s) <= IntMax
    ensures r.Ok? ==> r.value <= IntMax
    ensures r.Err? ==> (r.error == OutOfRange <==> IsDigits(s))
    ensures r.Err? ==> r.error == OutOfRange || r.error == InvalidArgument
  {
    if !IsDigits(s) then Err(InvalidArgument)
    else if DigitsValue(s) > IntMax then Err(OutOfRange)
    else Ok(DigitsValue(s))
  }

  /** Up to nine digits always fit an `int`. */
  lemma ShortGroupParses(s: string)
    requires IsDigits(s) && |s| <= 9
    ensures ParseNumber(s) == Ok(DigitsValue(s))
  {
    DigitsValueBelow(s);
    Pow10Mono(|s|, 9);
  }

  /** Ten nines do not fit an `int`: std::stoi throws out_of_range. */
  lemma TenNinesOutOfRange()
    ensures ParseNumber("9999999999") == Err(OutOfRange)
  {
    var s := "9999999999";
    assert IsDigits(s);
    var k := 1;
    while k <= 10
      invariant 1 <= k <= 11
      invariant DigitsValue(s[..k - 1]) == Pow10(k - 1) - 1
    {
      assert s[..k][..k - 1] == s[..k - 1];
      k := k + 1;
    }
    assert s[..10] == s;
  }

  /** Powers of ten grow with the exponent. */
  lemma {:induction false} Pow10Mono(a: nat, b: nat)
    requires a <= b
    ensures Pow10(a) <= Pow10(b)
    decreases b - a
  {
    if a < b {
      Pow10Mono(a + 1, b);
    }
  }

  /**
   * The seconds group, through std::stod: a digit string of more than two digits is read
   * as two whole digits followed by a fraction; anything else is an invalid argument.
   */
  function SecondsOf(sec: string): (r: Result<real>)
    ensures r.Ok? <==> IsDigits(sec)
    ensures r.Err? ==> r.error == InvalidArgument
  {
    if !IsDigits(sec) then Err(InvalidArgument)
    else Ok(DigitsValue(sec) as real / (if |sec| <= 2 then 1.0 else Pow10(|sec| - 2) as real))
  }

  /** The seconds text "ssf...f" is read as ss plus the fraction 0.f...f. */
  lemma {:induction false} SecondsOfFraction(whole: string, frac: string)
    requires IsDigits(whole) && |whole| == 2 && IsDigits(frac)
    ensures IsDigits(whole + frac)
    ensures SecondsOf(whole + frac) == Ok(DigitsValue(whole) as real + DigitsValue(frac) as real / Pow10(|frac|) as real)
  {
    DigitsValueAppend(whole, frac);
    var n := Pow10(|frac|);
    var w, f := DigitsValue(whole), DigitsValue(frac);
    var p := n as real;
    var text := whole + frac;
    assert |text| - 2 == |frac| && |text| > 2;
    assert DigitsValue(text) == w * n + f;
    var x := (w * n + f) as real / p;
    assert SecondsOf(text) == Ok(x);
    var y := w as real + f as real / p;
    FractionArith(w, f, n);
  }

  lemma FractionArith(w: nat, f: nat, n: nat)
    requires n >= 1
    ensures (w * n + f) as real / n as real == w as real + f as real / n as real
  {
    var p := n as real;
    CastMul(w, n);
    assert (w * n + f) as real == w as real * p + f as real;
    DivDistrib(w as real * p, f as real, p);
    MulDiv(w as real, p);
  }

  /**
   * The part of fromString after the regular-expression match. `groups` is the match
   * (group 0 is the whole text) or None when the text did not match; a pattern with
   * fewer than three capture groups is a runtime error, and a missing fourth group reads
   * as empty text, which std::stod rejects. A degree or minute group past the range of
   * an `int` makes std::stoi throw out_of_range.
   */
  function FromMatch(groups: Option<seq<string>>): (r: Result<Angle>)
    ensures groups.None? ==> r == Err(InvalidArgument)
    ensures groups.Some? && |groups.value| < 4 ==> r == Err(RuntimeError)
    ensures groups.Some? && |groups.value| == 4 ==>
              r.Err? && (ParseNumber(groups.value[2]).Ok? && ParseNumber(groups.value[3]).Ok? ==> r.error == InvalidArgument)
    ensures groups.Some? && |groups.value| > 4 ==>
              (r.Ok? <==> ParseNumber(groups.value[2]).Ok? && ParseNumber(groups.value[3]).Ok? && IsDigits(groups.value[4]))
    ensures r.Ok? ==> (groups.value[1] == "-" ==> r.value.radian <= 0.0) && (groups.value[1] != "-" ==> r.value.radian >= 0.0)
    ensures r.Err? ==> r.error == InvalidArgument || r.error == RuntimeError || r.error == OutOfRange
  {
    match groups
    case None => Err(InvalidArgument)
    case Some(g) =>
      if |g| < 4 then Err(RuntimeError)
      else
        var negative := g[1] == "-";
        var secText := if |g| > 4 then g[4] else "";
        match ParseNumber(g[2])
        case Err(e) => Err(e)
        case Ok(d) =>
          match ParseNumber(g[3])
          case Err(e) => Err(e)
          case Ok(m) =>
            match SecondsOf(secText)
            case Err(e) => Err(e)
            case Ok(s) => Ok(FromDms(d as real, m as real, s, negative))
  }

  /**
   * The value read from groups that parse: fromDMS of the degree and minute numbers and of the
   * seconds text, made non-positive exactly when the sign group is "-". A seconds text longer
   * than two digits reads as whole seconds followed by their decimal fraction.
   */
  lemma FromMatchValue(g: seq<string>)
    requires |g| > 4 && IsDigits(g[2]) && IsDigits(g[3]) && IsDigits(g[4])
    requires DigitsValue(g[2]) <= IntMax && DigitsValue(g[3]) <= IntMax
    ensures SecondsOf(g[4]).Ok?
    ensures FromMatch(Some(g)) == Ok(FromDms(DigitsValue(g[2]) as real, DigitsValue(g[3]) as real, SecondsOf(g[4]).value, g[1] == "-"))
    ensures |g[4]| > 2 ==>
              var sec := DigitsValue(g[4][..2]) as real + DigitsValue(g[4][2..]) as real / Pow10(|g[4]| - 2) as real;
              FromMatch(Some(g)) == Ok(FromDms(DigitsValue(g[2]) as real, DigitsValue(g[3]) as real, sec, g[1] == "-"))
  {
    if |g[4]| > 2 {
      assert g[4] == g[4][..2] + g[4][2..];
      assert IsDigits(g[4][..2]) && IsDigits(g[4][2..]);
      SecondsOfFraction(g[4][..2], g[4][2..]);
    }
  }

  /** Digit groups of at most nine digits for degrees and minutes always read. */
  lemma FromMatchShortGroups(g: seq<string>)
    requires |g| > 4 && IsDigits(g[2]) && IsDigits(g[3]) && IsDigits(g[4]) && |g[2]| <= 9 && |g[3]| <= 9
    ensures FromMatch(Some(g)).Ok?
  {
    ShortGroupParses(g[2]);
    ShortGroupParses(g[3]);
  }

  /** "-1.23456" with groups "-", "1", "23", "456" reads as minus 1 degree 23 minutes 45.6 seconds. */
  lemma FromMatchExample()
    ensures FromMatch(Some(["-1.23456", "-", "1", "23", "456"])) == Ok(FromDms(1.0, 23.0, 45.6, true))
  {
    assert IsDigits("1") && IsDigits("23") && IsDigits("456");
    assert DigitsValue("1") == 1 by {
      assert "1"[..0] == [];
    }
    assert DigitsValue("23") == 23 by {
      assert "23"[..1] == "2";
      assert "2"[..0] == [];
    }
    assert DigitsValue("456") == 456 by {
      assert "456"[..2] == "45";
      assert "45"[..1] == "4";
      assert "4"[..0] == [];
    }
    assert Pow10(1) == 10;
  }
}

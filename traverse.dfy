/**
 * Closed and connecting traverses. The angular misclosure is spread over the stations
 * in seconds, the azimuths are carried forward from the starting azimuth, and the
 * coordinate misclosures are spread over the legs in proportion to their lengths, each
 * remainder being redistributed one unit at a time. Angle corrections are counts of
 * 10^-anglePrecision seconds; coordinate values are counts of 10^-distancePrecision
 * metres. sin, cos and sqrt are parameters.
 */
module TraverseAdjust {
  import opened Wrappers
  import opened Reals
  import opened ClosureUtils
  import opened Angles

  /** Conversion of an integer to size_t: arithmetic modulo 2^64. */
  function SizeT(x: int): (r: nat)
    ensures r < 0x1_0000_0000_0000_0000
    ensures 0 <= x < 0x1_0000_0000_0000_0000 ==> r == x
  {
    x % 0x1_0000_0000_0000_0000
  }

  /** std::accumulate over angles from Angle(0.0). */
  function AngleSum(s: seq<Angle>): Angle
  {
    if |s| == 0 then Angle(0.0) else Add(AngleSum(s[..|s| - 1]), s[|s| - 1])
  }

  /**
   * The expected sum of the left angles of a closed traverse, in degrees, as written:
   * (size - 2) * 180 evaluated in size_t.
   */
  function ClosedExpectedAsWritten(size: nat): (e: real)
    ensures 0.0 <= e < 18446744073709551616.0
  {
    SizeT(SizeT(size - 2) * 180) as real
  }

  /** The expected sum of the left angles of a closed polygon with `size` stations, in degrees. */
  function ClosedExpected(size: nat): (e: real)
    ensures e + 360.0 == (size * 180) as real
  {
    ((size - 2) * 180) as real
  }

  /** The expected sum of the left angles of a connecting traverse, in degrees. */
  function ConnectingExpected(size: nat, angleBeg: Angle, angleEnd: Angle): (e: real)
    ensures e >= ToDegrees(angleEnd) - ToDegrees(angleBeg)
  {
    SizeT(size * 180) as real + (ToDegrees(angleEnd) - ToDegrees(angleBeg))
  }

  /** The closed traverse's size_t arithmetic differs from the polygon rule for one station. */
  lemma ClosedExpectedWrapsForOneStation()
    ensures ClosedExpectedAsWritten(1) == 18446744073709551436.0
    ensures ClosedExpected(1) == -180.0
  {
  }

  /** For every realistic number of stations the size_t arithmetic gives the polygon rule. */
  lemma ClosedExpectedAgrees(size: nat)
    requires 2 <= size < 0x1_0000_0000_0000_0000 / 180
    ensures ClosedExpectedAsWritten(size) == ClosedExpected(size)
  {
  }

  /**
   * For every realistic number of stations the connecting traverse expects the stations'
   * half turns plus the turn from the start azimuth to the end azimuth.
   */
  lemma ConnectingExpectedValue(size: nat, angleBeg: Angle, angleEnd: Angle)
    requires size < 0x1_0000_0000_0000_0000 / 180
    ensures ConnectingExpected(size, angleBeg, angleEnd) == (size * 180) as real + (ToDegrees(angleEnd) - ToDegrees(angleBeg))
  {
  }

  // ---------------------------------------------------------------------------
  // Angles

  /** The uniform initial angle correction, as a count: -cut(f_beta / size). */
  function AngleShare(fBeta: int, size: nat, anglePrecision: int, cut: Cut): int
    requires size > 0
  {
    -cut(Units(fBeta, anglePrecision) / size as real, anglePrecision)
  }

  /** `size` copies of the uniform correction. */
  function UniformCorrections(fBeta: int, size: nat, anglePrecision: int, cut: Cut): (c: seq<int>)
    ensures |c| == size
    ensures forall i :: 0 <= i < size ==> c[i] == AngleShare(fBeta, size, anglePrecision, cut)
  {
    if size == 0 then [] else seq(size, _ => AngleShare(fBeta, size, anglePrecision, cut))
  }

  /** A left angle plus its correction in seconds. */
  function CorrectAngle(left: Angle, count: int, anglePrecision: int): Angle
  {
    Add(left, FromSeconds(Units(count, anglePrecision)))
  }

  /** Every left angle plus its correction. */
  function CorrectedAngles(left: seq<Angle>, counts: seq<int>, anglePrecision: int): (a: seq<Angle>)
    requires |left| == |counts|
    ensures |a| == |left|
  {
    seq(|left|, i requires 0 <= i < |left| => CorrectAngle(left[i], counts[i], anglePrecision))
  }

  /** The next azimuth: the previous one plus the corrected left angle minus pi, brought into [0, 2 pi]. */
  function NextAzimuth(azimuth: Angle, corrected: Angle): Angle
  {
    StdValue(Sub(Add(azimuth, corrected), SinglePi()))
  }

  /** The azimuths: the starting azimuth, then each carried forward by the next corrected angle. */
  function Azimuths(angleBeg: Angle, corrected: seq<Angle>): (az: seq<Angle>)
    ensures |az| == |corrected| + 1 && az[0] == angleBeg
  {
    if |corrected| == 0 then [angleBeg]
    else
      var prev := Azimuths(angleBeg, corrected[..|corrected| - 1]);
      prev + [NextAzimuth(prev[|corrected| - 1], corrected[|corrected| - 1])]
  }

  /** Each azimuth follows from the one before it. */
  lemma {:induction false} AzimuthsStep(angleBeg: Angle, corrected: seq<Angle>, i: nat)
    requires i < |corrected|
    ensures Azimuths(angleBeg, corrected)[i + 1] == NextAzimuth(Azimuths(angleBeg, corrected)[i], corrected[i])
  {
    if i < |corrected| - 1 {
      AzimuthsStep(angleBeg, corrected[..|corrected| - 1], i);
    }
  }

  /** Every azimuth after the first lies in [0, 2 pi]. */
  lemma {:induction false} AzimuthsInRange(angleBeg: Angle, corrected: seq<Angle>, i: nat)
    requires 1 <= i <= |corrected|
    ensures 0.0 <= Azimuths(angleBeg, corrected)[i].radian <= TWO_PI
  {
    AzimuthsStep(angleBeg, corrected, i - 1);
  }

  /** The result of the angular part of an adjustment. */
  datatype AngleStage = AngleStage(
    leftAngleSum: Angle,
    fBeta: int,
    corrections: seq<int>,
    corrected: seq<Angle>,
    correctedAngleSum: Angle)

  /** The angular misclosure before cutting, in seconds: the left angles' sum minus the expected sum. */
  function AngleMisclosure(leftSum: Angle, expected: real): real
  {
    ToSeconds(leftSum) - expected * 3600.0
  }

  /**
   * How far the corrections summing to `s` overshoot the target -f_beta, as a count:
   * cut(s - (-f_beta)).
   */
  function AngleExcess(s: int, fBeta: int, anglePrecision: int, cut: Cut): int
  {
    cut(Units(s, anglePrecision) - (-Units(fBeta, anglePrecision)), anglePrecision)
  }

  /**
   * The angular part shared by both traverses: f_beta is the cut misclosure in seconds,
   * and the uniform corrections are redistributed to sum to -f_beta.
   */
  function AdjustAngles(left: seq<Angle>, expected: real, anglePrecision: int,
                        cut: Cut, threshold: real): (r: Result<AngleStage>)
    ensures r.Ok? ==> |r.value.corrections| == |left| && |r.value.corrected| == |left|
    ensures r.Err? ==> r.error == OutOfRange && |left| == 0
  {
    var leftSum := AngleSum(left);
    var fBeta := cut(AngleMisclosure(leftSum, expected), anglePrecision);
    var initial := UniformCorrections(fBeta, |left|, anglePrecision, cut);
    var adjusted := SumToTarget(initial, AngleExcess(Sum(initial), fBeta, anglePrecision, cut),
                                anglePrecision, threshold, cut);
    if adjusted.Err? then Err(adjusted.error)
    else
      var corrected := CorrectedAngles(left, adjusted.value, anglePrecision);
      Ok(AngleStage(leftSum, fBeta, adjusted.value, corrected, AngleSum(corrected)))
  }

  // ---------------------------------------------------------------------------
  // Coordinates

  /** A coordinate difference along one leg, as a count: cut(distance * trig(azimuth)). */
  function Delta(distance: real, azimuth: Angle, trig: real -> real, distancePrecision: int, cut: Cut): int
  {
    cut(distance * trig(azimuth.radian), distancePrecision)
  }

  /** The coordinate differences of every leg, leg i using azimuth i + offset. */
  function Deltas(dist: seq<real>, azimuth: seq<Angle>, offset: nat, trig: real -> real,
                  distancePrecision: int, cut: Cut): (d: seq<int>)
    requires |dist| + offset <= |azimuth|
    ensures |d| == |dist|
  {
    seq(|dist|, i requires 0 <= i < |dist| => Delta(dist[i], azimuth[i + offset], trig, distancePrecision, cut))
  }

  /** One leg's share of a coordinate misclosure f: cut(distance / distanceSum * -f). */
  function LegShare(distance: real, distanceSum: real, f: real, distancePrecision: int, cut: Cut): int
    requires distanceSum != 0.0
  {
    cut(distance / distanceSum * -f, distancePrecision)
  }

  /** Every leg's share. */
  function LegShares(dist: seq<real>, distanceSum: real, f: real, distancePrecision: int, cut: Cut): (c: seq<int>)
    requires distanceSum != 0.0
    ensures |c| == |dist|
  {
    seq(|dist|, i requires 0 <= i < |dist| => LegShare(dist[i], distanceSum, f, distancePrecision, cut))
  }

  /** A corrected coordinate difference: cut(delta + correction). */
  function CorrectDelta(delta: int, correction: int, distancePrecision: int, cut: Cut): int
  {
    cut(Units(delta, distancePrecision) + Units(correction, distancePrecision), distancePrecision)
  }

  /** Every corrected coordinate difference. */
  function CorrectedDeltas(delta: seq<int>, corrections: seq<int>, distancePrecision: int, cut: Cut): (c: seq<int>)
    requires |delta| == |corrections|
    ensures |c| == |delta|
  {
    seq(|delta|, i requires 0 <= i < |delta| => CorrectDelta(delta[i], corrections[i], distancePrecision, cut))
  }

  /** The next coordinate: cut(previous + corrected difference). */
  function NextCoordinate(previous: real, corrected: int, distancePrecision: int, cut: Cut): real
  {
    Units(cut(previous + Units(corrected, distancePrecision), distancePrecision), distancePrecision)
  }

  /** The coordinates: the start, then each previous one plus the next corrected difference. */
  function Coordinates(beg: real, corrected: seq<int>, distancePrecision: int, cut: Cut): (c: seq<real>)
    ensures |c| == |corrected| + 1 && c[0] == beg
  {
    if |corrected| == 0 then [beg]
    else
      var prev := Coordinates(beg, corrected[..|corrected| - 1], distancePrecision, cut);
      prev + [NextCoordinate(prev[|corrected| - 1], corrected[|corrected| - 1], distancePrecision, cut)]
  }

  /** Each coordinate follows from the one before it. */
  lemma {:induction false} CoordinatesStep(beg: real, corrected: seq<int>, distancePrecision: int, cut: Cut, i: nat)
    requires i < |corrected|
    ensures Coordinates(beg, corrected, distancePrecision, cut)[i + 1] ==
            NextCoordinate(Coordinates(beg, corrected, distancePrecision, cut)[i], corrected[i], distancePrecision, cut)
  {
    if i < |corrected| - 1 {
      CoordinatesStep(beg, corrected[..|corrected| - 1], distancePrecision, cut, i);
    }
  }

  /** The result of adjusting one coordinate axis. */
  datatype AxisStage = AxisStage(
    delta: seq<int>,
    misclosure: real,
    corrections: seq<int>,
    corrected: seq<int>,
    coordinates: seq<real>)

  /** The misclosure of an axis: the differences' sum less the known rise, in units. */
  function AxisMisclosure(delta: seq<int>, known: real, distancePrecision: int): real
  {
    Units(Sum(delta), distancePrecision) - known
  }

  /** How far the corrections summing to `s` overshoot the target -f, as a count: cut(s - (-f)). */
  function AxisExcess(s: int, f: real, distancePrecision: int, cut: Cut): int
  {
    cut(Units(s, distancePrecision) - -f, distancePrecision)
  }

  /**
   * One coordinate axis: the misclosure is the sum of the differences less the known
   * rise `known` (zero for a closed traverse); the shares are redistributed to sum to
   * minus the misclosure; the coordinates run from `beg`. A zero total distance with legs
   * to correct divides by zero, which the model reports as NonFinite.
   */
  function AdjustAxis(dist: seq<real>, delta: seq<int>, known: real, beg: real, distancePrecision: int,
                      cut: Cut, threshold: real): (r: Result<AxisStage>)
    requires |dist| == |delta|
    ensures r.Ok? ==> |r.value.corrections| == |dist| && |r.value.corrected| == |dist| &&
                      |r.value.coordinates| == |dist| + 1 && r.value.coordinates[0] == beg &&
                      r.value.delta == delta
    ensures r.Err? ==> (r.error == NonFinite && |dist| > 0) || (r.error == OutOfRange && |dist| == 0)
  {
    var distanceSum := SumReal(dist);
    var f := AxisMisclosure(delta, known, distancePrecision);
    if distanceSum == 0.0 && |dist| > 0 then Err(NonFinite)
    else
      var initial := if |dist| == 0 then [] else LegShares(dist, distanceSum, f, distancePrecision, cut);
      var adjusted := SumToTarget(initial, AxisExcess(Sum(initial), f, distancePrecision, cut), distancePrecision, threshold, cut);
      if adjusted.Err? then Err(adjusted.error)
      else
        var corrected := CorrectedDeltas(delta, adjusted.value, distancePrecision, cut);
        Ok(AxisStage(delta, f, adjusted.value, corrected, Coordinates(beg, corrected, distancePrecision, cut)))
  }

  // ---------------------------------------------------------------------------
  // The whole adjustment

  /** What a traverse adjustment reports. */
  datatype TraverseReport = TraverseReport(
    angles: AngleStage,
    azimuth: seq<Angle>,
    fBetaExpect: real,
    tolerance: real,
    distanceSum: real,
    x: AxisStage,
    y: AxisStage,
    f: int,
    kInv: Option<int>)

  /** The functions the adjustment needs from outside: rounding, trigonometry and tolerance. */
  datatype Numerics = Numerics(cut: Cut, sin: real -> real, cos: real -> real, sqrt: real -> real,
                               tolerance: (real, real) -> real)

  /** The total misclosure f = cut(sqrt(f_x^2 + f_y^2)) and 1/K = floor(D / f), which has no value for f = 0. */
  function TotalMisclosure(fx: real, fy: real, distanceSum: real, distancePrecision: int, num: Numerics): (r: (int, Option<int>))
    ensures r.1.None? <==> Units(r.0, distancePrecision) == 0.0
  {
    var f := num.cut(num.sqrt(fx * fx + fy * fy), distancePrecision);
    var fv := Units(f, distancePrecision);
    (f, if fv == 0.0 then None else Some((distanceSum / fv).Floor))
  }

  /**
   * The pipeline both traverses share once the expected angle sum, the legs, the azimuth
   * offset of the legs and the known coordinate rises are fixed.
   */
  function Traverse(left: seq<Angle>, dist: seq<real>, angleBeg: Angle, expected: real, offset: nat,
                    xBeg: real, yBeg: real, knownX: real, knownY: real,
                    anglePrecision: int, distancePrecision: int, num: Numerics, threshold: real): (r: Result<TraverseReport>)
    requires |dist| + offset <= |left|
    ensures r.Ok? ==> |r.value.x.coordinates| == |dist| + 1 && |r.value.y.coordinates| == |dist| + 1 &&
                      r.value.x.coordinates[0] == xBeg && r.value.y.coordinates[0] == yBeg &&
                      |r.value.angles.corrections| == |left| && r.value.fBetaExpect == expected
  {
    var angles := AdjustAngles(left, expected, anglePrecision, num.cut, threshold);
    if angles.Err? then Err(angles.error)
    else
      var az := Azimuths(angleBeg, angles.value.corrected);
      var dx := Deltas(dist, az, offset, num.cos, distancePrecision, num.cut);
      var dy := Deltas(dist, az, offset, num.sin, distancePrecision, num.cut);
      var x := AdjustAxis(dist, dx, knownX, xBeg, distancePrecision, num.cut, threshold);
      var y := AdjustAxis(dist, dy, knownY, yBeg, distancePrecision, num.cut, threshold);
      if x.Err? then Err(x.error)
      else if y.Err? then Err(y.error)
      else
        var distanceSum := SumReal(dist);
        var total := TotalMisclosure(x.value.misclosure, y.value.misclosure, distanceSum, distancePrecision, num);
        Ok(TraverseReport(angles.value, az, expected, num.tolerance(|left| as real, distanceSum), distanceSum,
                          x.value, y.value, total.0, total.1))
  }

  /** closedTraverseAdjust: as many legs as stations, each leg using the azimuth before it. */
  function ClosedTraverse(left: seq<Angle>, dist: seq<real>, angleBeg: Angle, xBeg: real, yBeg: real,
                          anglePrecision: int, distancePrecision: int, num: Numerics, threshold: real): (r: Result<TraverseReport>)
    ensures |left| != |dist| <==> r == Err(InvalidArgument)
    ensures r.Ok? ==> r.value.fBetaExpect == ClosedExpected(|left|) &&
                      |r.value.x.coordinates| == |left| + 1 && |r.value.y.coordinates| == |left| + 1
  {
    if |left| != |dist| then Err(InvalidArgument)
    else Traverse(left, dist, angleBeg, ClosedExpected(|left|), 0, xBeg, yBeg, 0.0, 0.0,
                  anglePrecision, distancePrecision, num, threshold)
  }

  /** The known rise of a coordinate from the start point to the end point. */
  function Rise(beg: real, end: real): (d: real)
    ensures beg + d == end
  {
    end - beg
  }

  /**
   * connectingTraverseAdjust: one leg fewer than stations, each leg using the azimuth
   * after it, and the known end point as the target.
   */
  function ConnectingTraverse(left: seq<Angle>, dist: seq<real>, angleBeg: Angle, angleEnd: Angle,
                              xBeg: real, yBeg: real, xEnd: real, yEnd: real,
                              anglePrecision: int, distancePrecision: int, num: Numerics, threshold: real): (r: Result<TraverseReport>)
    ensures |left| != |dist| + 1 <==> r == Err(InvalidArgument)
    ensures r.Ok? ==> r.value.fBetaExpect == ConnectingExpected(|left|, angleBeg, angleEnd) &&
                      |r.value.x.coordinates| == |left| && |r.value.y.coordinates| == |left|
  {
    if |left| == 0 || |left| - 1 != |dist| then Err(InvalidArgument)
    else Traverse(left, dist, angleBeg, ConnectingExpected(|left|, angleBeg, angleEnd), 1, xBeg, yBeg,
                  Rise(xBeg, xEnd), Rise(yBeg, yEnd), anglePrecision, distancePrecision, num, threshold)
  }

  /**
   * The size check of the connecting traverse compares size - 1 in size_t. With no
   * stations that wraps to 2^64 - 1, which no distance vector matches, so the check
   * rejects exactly the inputs whose sizes differ by other than one.
   */
  lemma ConnectingSizeCheck(stations: nat, legs: nat)
    requires stations < 0x1_0000_0000_0000_0000 && legs < 0x1_0000_0000_0000_0000 - 1
    ensures SizeT(stations - 1) != legs <==> stations != legs + 1
  {
    if stations == 0 {
      assert SizeT(-1) == 0x1_0000_0000_0000_0000 - 1;
    }
  }

  /**
   * closedTraverseAssert: the traverse returns to its first point within the threshold on
   * both axes, and the corrected angles sum to the expected value within the angle
   * threshold.
   */
  predicate ClosedTraverseAssert(report: TraverseReport, threshold: real, angleThreshold: real)
  {
    |report.x.coordinates| > 0 && |report.y.coordinates| > 0 &&
    MathUtils.EqApprox(report.x.coordinates[0], report.x.coordinates[|report.x.coordinates| - 1], threshold) &&
    MathUtils.EqApprox(report.y.coordinates[0], report.y.coordinates[|report.y.coordinates| - 1], threshold) &&
    WithinAbs(report.angles.correctedAngleSum, Angle(Deg2Rad(report.fBetaExpect)), angleThreshold)
  }

  // ---------------------------------------------------------------------------
  // Closure of the adjusted traverse

  /** Converting seconds to radians is additive. */
  lemma Sec2RadAdd(a: real, b: real)
    ensures Sec2Rad(a + b) == Sec2Rad(a) + Sec2Rad(b)
  {
  }

  /** The corrected angles sum to the left angles plus the total correction in seconds. */
  lemma {:induction false} CorrectedAngleSum(left: seq<Angle>, counts: seq<int>, anglePrecision: int)
    requires |left| == |counts|
    ensures AngleSum(CorrectedAngles(left, counts, anglePrecision)).radian ==
            AngleSum(left).radian + Sec2Rad(Units(Sum(counts), anglePrecision))
  {
    var n := |left|;
    if n == 0 {
      UnitsSign(0, anglePrecision);
    } else {
      var p := anglePrecision;
      CorrectedAngleSum(left[..n - 1], counts[..n - 1], p);
      assert CorrectedAngles(left, counts, p)[..n - 1] == CorrectedAngles(left[..n - 1], counts[..n - 1], p);
      UnitsAdd(Sum(counts[..n - 1]), counts[n - 1], p);
      Sec2RadAdd(Units(Sum(counts[..n - 1]), p), Units(counts[n - 1], p));
    }
  }

  /** Once the corrections sum to minus the whole misclosure, the corrected sum is the expected one. */
  lemma AngleArith(leftSum: real, fBeta: int, expected: real, p: int)
    requires Units(fBeta, p) == Rad2Sec(leftSum) - expected * 3600.0
    ensures leftSum + Sec2Rad(Units(-fBeta, p)) == Deg2Rad(expected)
  {
    UnitsSub(fBeta, 0, p);
    ConvertersRoundTrip(leftSum);
    ConvertersRoundTrip(expected);
    Sec2RadAdd(-Rad2Sec(leftSum), expected * 3600.0);
  }

  /** The redistribution target of the angle corrections: their sum plus the misclosure, in units. */
  lemma AngleTarget(s: int, fBeta: int, p: int, cut: Cut)
    requires KeepsWholeUnits(cut, p)
    ensures AngleExcess(s, fBeta, p, cut) == s + fBeta
  {
    UnitsAdd(s, fBeta, p);
    assert Units(s, p) - (-Units(fBeta, p)) == Units(s + fBeta, p);
    assert Recut(cut, s + fBeta, p) == s + fBeta;
  }

  /** Redistributing towards minus the misclosure leaves corrections that sum to exactly that. */
  lemma AnglesAdjustedSum(initial: seq<int>, fBeta: int, p: int, cut: Cut, threshold: real)
    requires |initial| > 0 && threshold <= Unit(p) && KeepsWholeUnits(cut, p)
    ensures var adjusted := SumToTarget(initial, AngleExcess(Sum(initial), fBeta, p, cut), p, threshold, cut);
            adjusted.Ok? && Sum(adjusted.value) == -fBeta
  {
    var s := Sum(initial);
    var dif := AngleExcess(s, fBeta, p, cut);
    AngleTarget(s, fBeta, p, cut);
    assert dif == s + fBeta;
    AdjustReachesTarget(initial, dif, p, threshold, cut);
  }

  /**
   * Whatever the initial corrections, once they are redistributed to sum to minus the
   * whole misclosure the corrected angles sum to exactly the expected value.
   */
  lemma {:induction false} AnglesReachExpected(left: seq<Angle>, initial: seq<int>, expected: real,
                                               anglePrecision: int, cut: Cut, threshold: real)
    requires |left| == |initial| > 0 && threshold <= Unit(anglePrecision) && KeepsWholeUnits(cut, anglePrecision)
    requires CutIsExact(cut, AngleMisclosure(AngleSum(left), expected), anglePrecision)
    ensures var fBeta := cut(AngleMisclosure(AngleSum(left), expected), anglePrecision);
            var adjusted := SumToTarget(initial, AngleExcess(Sum(initial), fBeta, anglePrecision, cut),
                                        anglePrecision, threshold, cut);
            adjusted.Ok? && AngleSum(CorrectedAngles(left, adjusted.value, anglePrecision)) == FromDegrees(expected)
  {
    var p := anglePrecision;
    var leftSum := AngleSum(left);
    var fBeta := cut(AngleMisclosure(leftSum, expected), p);
    AnglesAdjustedSum(initial, fBeta, p, cut, threshold);
    var adjusted := SumToTarget(initial, AngleExcess(Sum(initial), fBeta, p, cut), p, threshold, cut).value;
    CorrectedAngleSum(left, adjusted, p);
    AngleArith(leftSum.radian, fBeta, expected, p);
  }

  /** A run of the angular part whose redistribution succeeds reports the corrected angles and their sum. */
  lemma AdjustAnglesUnfold(left: seq<Angle>, expected: real, anglePrecision: int, cut: Cut, threshold: real)
    ensures var p := anglePrecision;
            var fBeta := cut(AngleMisclosure(AngleSum(left), expected), p);
            var initial := UniformCorrections(fBeta, |left|, p, cut);
            var adjusted := SumToTarget(initial, AngleExcess(Sum(initial), fBeta, p, cut), p, threshold, cut);
            adjusted.Ok? ==>
              AdjustAngles(left, expected, p, cut, threshold).Ok? &&
              AdjustAngles(left, expected, p, cut, threshold).value.correctedAngleSum ==
                AngleSum(CorrectedAngles(left, adjusted.value, p))
  {
  }

  /**
   * When cut keeps whole seconds-units and the misclosure is itself a whole number of
   * them, the corrected angles of a non-empty traverse sum to exactly the expected value.
   */
  lemma AdjustAnglesCloses(left: seq<Angle>, expected: real, anglePrecision: int,
                           cut: Cut, threshold: real)
    requires |left| > 0 && threshold <= Unit(anglePrecision) && KeepsWholeUnits(cut, anglePrecision)
    requires CutIsExact(cut, AngleMisclosure(AngleSum(left), expected), anglePrecision)
    ensures AdjustAngles(left, expected, anglePrecision, cut, threshold).Ok?
    ensures AdjustAngles(left, expected, anglePrecision, cut, threshold).value.correctedAngleSum == FromDegrees(expected)
  {
    var fBeta := cut(AngleMisclosure(AngleSum(left), expected), anglePrecision);
    AdjustAnglesUnfold(left, expected, anglePrecision, cut, threshold);
    AnglesReachExpected(left, UniformCorrections(fBeta, |left|, anglePrecision, cut), expected, anglePrecision, cut, threshold);
  }

  /** Corrected differences add up to the differences plus the corrections when cut keeps whole units. */
  lemma {:induction false} CorrectedDeltasSum(delta: seq<int>, corrections: seq<int>, distancePrecision: int, cut: Cut)
    requires |delta| == |corrections| && KeepsWholeUnits(cut, distancePrecision)
    ensures Sum(CorrectedDeltas(delta, corrections, distancePrecision, cut)) == Sum(delta) + Sum(corrections)
  {
    var n := |delta|;
    if n > 0 {
      CorrectedDeltasSum(delta[..n - 1], corrections[..n - 1], distancePrecision, cut);
      assert CorrectedDeltas(delta, corrections, distancePrecision, cut)[..n - 1] ==
             CorrectedDeltas(delta[..n - 1], corrections[..n - 1], distancePrecision, cut);
      UnitsAdd(delta[n - 1], corrections[n - 1], distancePrecision);
      assert Recut(cut, delta[n - 1] + corrections[n - 1], distancePrecision) == delta[n - 1] + corrections[n - 1];
    }
  }

  /** From a whole starting coordinate, the last coordinate is the start plus all corrected differences. */
  lemma {:induction false} CoordinatesLast(beg: real, corrected: seq<int>, distancePrecision: int, cut: Cut)
    requires KeepsWholeUnits(cut, distancePrecision) && CutIsExact(cut, beg, distancePrecision)
    ensures Coordinates(beg, corrected, distancePrecision, cut)[|corrected|] ==
            Units(cut(beg, distancePrecision) + Sum(corrected), distancePrecision)
  {
    var n := |corrected|;
    if n > 0 {
      CoordinatesLast(beg, corrected[..n - 1], distancePrecision, cut);
      var k := cut(beg, distancePrecision) + Sum(corrected[..n - 1]);
      UnitsAdd(k, corrected[n - 1], distancePrecision);
      assert Recut(cut, k + corrected[n - 1], distancePrecision) == k + corrected[n - 1];
    }
  }

  /** The redistribution target of an axis: the initial sum plus the differences less the known rise, in units. */
  lemma AxisTarget(s: int, d: int, known: real, p: int, cut: Cut)
    requires KeepsWholeUnits(cut, p) && CutIsExact(cut, known, p)
    ensures AxisExcess(s, Units(d, p) - known, p, cut) == s + d - cut(known, p)
  {
    var k := cut(known, p);
    UnitsSub(d, k, p);
    UnitsAdd(s, d - k, p);
    assert Units(s, p) - -(Units(d, p) - known) == Units(s + d - k, p);
    assert Recut(cut, s + d - k, p) == s + d - k;
  }

  /**
   * Whatever the initial corrections, once they are redistributed to sum to minus the
   * misclosure the coordinates end at the start plus the known rise.
   */
  lemma {:induction false} AxisReachesEnd(initial: seq<int>, delta: seq<int>, known: real, beg: real, end: real,
                                          p: int, cut: Cut, threshold: real)
    requires |initial| == |delta| > 0 && threshold <= Unit(p) && KeepsWholeUnits(cut, p)
    requires CutIsExact(cut, beg, p) && CutIsExact(cut, known, p) && beg + known == end
    ensures var adjusted := SumToTarget(initial, AxisExcess(Sum(initial), AxisMisclosure(delta, known, p), p, cut), p, threshold, cut);
            adjusted.Ok? && Coordinates(beg, CorrectedDeltas(delta, adjusted.value, p, cut), p, cut)[|delta|] == end
  {
    var k := cut(known, p);
    var d := Sum(delta);
    var s := Sum(initial);
    var dif := AxisExcess(s, AxisMisclosure(delta, known, p), p, cut);
    AxisTarget(s, d, known, p, cut);
    assert dif == s + d - k;
    AdjustReachesTarget(initial, dif, p, threshold, cut);
    var adjusted := SumToTarget(initial, dif, p, threshold, cut).value;
    CorrectedDeltasSum(delta, adjusted, p, cut);
    CoordinatesLast(beg, CorrectedDeltas(delta, adjusted, p, cut), p, cut);
    UnitsAdd(cut(beg, p), k, p);
  }

  /**
   * When cut keeps whole units and the start and the known rise are whole, the adjusted
   * coordinates of a non-empty axis end exactly at `end`, the start plus the known rise.
   */
  lemma AdjustAxisCloses(dist: seq<real>, delta: seq<int>, known: real, beg: real, end: real, distancePrecision: int,
                         cut: Cut, threshold: real)
    requires |dist| == |delta| && |dist| > 0 && threshold <= Unit(distancePrecision)
    requires KeepsWholeUnits(cut, distancePrecision)
    requires CutIsExact(cut, beg, distancePrecision) && CutIsExact(cut, known, distancePrecision) && beg + known == end
    requires AdjustAxis(dist, delta, known, beg, distancePrecision, cut, threshold).Ok?
    ensures AdjustAxis(dist, delta, known, beg, distancePrecision, cut, threshold).value.coordinates[|dist|] == end
  {
    var f := AxisMisclosure(delta, known, distancePrecision);
    AxisReachesEnd(LegShares(dist, SumReal(dist), f, distancePrecision, cut), delta, known, beg, end,
                   distancePrecision, cut, threshold);
  }

  /** A whole number of units is cut to itself. */
  lemma WholeIsExact(cut: Cut, k: int, precision: int)
    requires KeepsWholeUnits(cut, precision)
    ensures CutIsExact(cut, Units(k, precision), precision)
  {
    assert Recut(cut, k, precision) == k;
  }

  /** A successful run of the shared pipeline reports the angular stage and the two axis stages. */
  lemma TraverseUnfold(left: seq<Angle>, dist: seq<real>, angleBeg: Angle, expected: real, offset: nat,
                       xBeg: real, yBeg: real, knownX: real, knownY: real,
                       anglePrecision: int, distancePrecision: int, num: Numerics, threshold: real)
    requires |dist| + offset <= |left|
    requires Traverse(left, dist, angleBeg, expected, offset, xBeg, yBeg, knownX, knownY,
                      anglePrecision, distancePrecision, num, threshold).Ok?
    ensures var r := Traverse(left, dist, angleBeg, expected, offset, xBeg, yBeg, knownX, knownY,
                              anglePrecision, distancePrecision, num, threshold).value;
            var angles := AdjustAngles(left, expected, anglePrecision, num.cut, threshold);
            angles.Ok? && r.angles == angles.value &&
            var az := Azimuths(angleBeg, angles.value.corrected);
            var x := AdjustAxis(dist, Deltas(dist, az, offset, num.cos, distancePrecision, num.cut), knownX, xBeg,
                                distancePrecision, num.cut, threshold);
            var y := AdjustAxis(dist, Deltas(dist, az, offset, num.sin, distancePrecision, num.cut), knownY, yBeg,
                                distancePrecision, num.cut, threshold);
            x.Ok? && y.Ok? && r.x == x.value && r.y == y.value
  {
  }

  /**
   * The shared pipeline closes: when cut keeps whole units, and the start, the known
   * rises and the angular misclosure are whole numbers of units, the coordinates end at
   * the start plus the known rises and the corrected angles sum to the expected value.
   */
  lemma TraverseCloses(left: seq<Angle>, dist: seq<real>, angleBeg: Angle, expected: real, offset: nat,
                       xBeg: real, yBeg: real, knownX: real, knownY: real, xEnd: real, yEnd: real,
                       anglePrecision: int, distancePrecision: int, num: Numerics, threshold: real)
    requires |dist| + offset <= |left| && |dist| > 0
    requires Traverse(left, dist, angleBeg, expected, offset, xBeg, yBeg, knownX, knownY,
                      anglePrecision, distancePrecision, num, threshold).Ok?
    requires threshold <= Unit(anglePrecision) && threshold <= Unit(distancePrecision)
    requires KeepsWholeUnits(num.cut, anglePrecision) && KeepsWholeUnits(num.cut, distancePrecision)
    requires CutIsExact(num.cut, xBeg, distancePrecision) && CutIsExact(num.cut, yBeg, distancePrecision)
    requires CutIsExact(num.cut, knownX, distancePrecision) && CutIsExact(num.cut, knownY, distancePrecision)
    requires xBeg + knownX == xEnd && yBeg + knownY == yEnd
    requires CutIsExact(num.cut, AngleMisclosure(AngleSum(left), expected), anglePrecision)
    ensures var r := Traverse(left, dist, angleBeg, expected, offset, xBeg, yBeg, knownX, knownY,
                              anglePrecision, distancePrecision, num, threshold).value;
            r.x.coordinates[|dist|] == xEnd && r.y.coordinates[|dist|] == yEnd &&
            r.angles.correctedAngleSum == FromDegrees(expected)
  {
    TraverseUnfold(left, dist, angleBeg, expected, offset, xBeg, yBeg, knownX, knownY,
                   anglePrecision, distancePrecision, num, threshold);
    AdjustAnglesCloses(left, expected, anglePrecision, num.cut, threshold);
    var az := Azimuths(angleBeg, AdjustAngles(left, expected, anglePrecision, num.cut, threshold).value.corrected);
    var dx := Deltas(dist, az, offset, num.cos, distancePrecision, num.cut);
    var dy := Deltas(dist, az, offset, num.sin, distancePrecision, num.cut);
    AdjustAxisCloses(dist, dx, knownX, xBeg, xEnd, distancePrecision, num.cut, threshold);
    AdjustAxisCloses(dist, dy, knownY, yBeg, yEnd, distancePrecision, num.cut, threshold);
  }

  /**
   * The closed traverse closes: when cut keeps whole units, the start coordinates and the
   * angular misclosure are whole, the last point is the first point and the corrected
   * angles sum to the expected value.
   */
  lemma ClosedTraverseCloses(left: seq<Angle>, dist: seq<real>, angleBeg: Angle, xBeg: real, yBeg: real,
                             anglePrecision: int, distancePrecision: int, num: Numerics, threshold: real)
    requires ClosedTraverse(left, dist, angleBeg, xBeg, yBeg, anglePrecision, distancePrecision, num, threshold).Ok?
    requires |left| > 0 && threshold <= Unit(anglePrecision) && threshold <= Unit(distancePrecision)
    requires KeepsWholeUnits(num.cut, anglePrecision) && KeepsWholeUnits(num.cut, distancePrecision)
    requires CutIsExact(num.cut, xBeg, distancePrecision) && CutIsExact(num.cut, yBeg, distancePrecision)
    requires CutIsExact(num.cut, AngleMisclosure(AngleSum(left), ClosedExpected(|left|)), anglePrecision)
    ensures var r := ClosedTraverse(left, dist, angleBeg, xBeg, yBeg, anglePrecision, distancePrecision, num, threshold).value;
            r.x.coordinates[|left|] == xBeg && r.y.coordinates[|left|] == yBeg &&
            r.angles.correctedAngleSum == FromDegrees(r.fBetaExpect)
  {
    ZeroIsExact(num.cut, distancePrecision);
    TraverseCloses(left, dist, angleBeg, ClosedExpected(|left|), 0, xBeg, yBeg, 0.0, 0.0, xBeg, yBeg,
                   anglePrecision, distancePrecision, num, threshold);
  }

  /**
   * The connecting traverse reaches its known end point: under the same conditions, with
   * the end coordinates whole as well, the last point is the end point.
   */
  lemma ConnectingTraverseReachesEnd(left: seq<Angle>, dist: seq<real>, angleBeg: Angle, angleEnd: Angle,
                                     xBeg: real, yBeg: real, xEnd: real, yEnd: real,
                                     anglePrecision: int, distancePrecision: int, num: Numerics, threshold: real)
    requires ConnectingTraverse(left, dist, angleBeg, angleEnd, xBeg, yBeg, xEnd, yEnd,
                                anglePrecision, distancePrecision, num, threshold).Ok?
    requires |dist| > 0 && threshold <= Unit(anglePrecision) && threshold <= Unit(distancePrecision)
    requires KeepsWholeUnits(num.cut, anglePrecision) && KeepsWholeUnits(num.cut, distancePrecision)
    requires CutIsExact(num.cut, xBeg, distancePrecision) && CutIsExact(num.cut, yBeg, distancePrecision)
    requires CutIsExact(num.cut, xEnd, distancePrecision) && CutIsExact(num.cut, yEnd, distancePrecision)
    requires CutIsExact(num.cut, AngleMisclosure(AngleSum(left), ConnectingExpected(|left|, angleBeg, angleEnd)),
                        anglePrecision)
    ensures var r := ConnectingTraverse(left, dist, angleBeg, angleEnd, xBeg, yBeg, xEnd, yEnd,
                                        anglePrecision, distancePrecision, num, threshold).value;
            r.x.coordinates[|dist|] == xEnd && r.y.coordinates[|dist|] == yEnd &&
            r.angles.correctedAngleSum == FromDegrees(r.fBetaExpect)
  {
    RiseIsExact(num.cut, xBeg, xEnd, distancePrecision);
    RiseIsExact(num.cut, yBeg, yEnd, distancePrecision);
    ConnectingIsTraverse(left, dist, angleBeg, angleEnd, xBeg, yBeg, xEnd, yEnd,
                         anglePrecision, distancePrecision, num, threshold);
    TraverseCloses(left, dist, angleBeg, ConnectingExpected(|left|, angleBeg, angleEnd), 1, xBeg, yBeg,
                   Rise(xBeg, xEnd), Rise(yBeg, yEnd), xEnd, yEnd, anglePrecision, distancePrecision, num, threshold);
  }

  /** The rise between two whole coordinates is whole. */
  lemma RiseIsExact(cut: Cut, beg: real, end: real, distancePrecision: int)
    requires KeepsWholeUnits(cut, distancePrecision)
    requires CutIsExact(cut, beg, distancePrecision) && CutIsExact(cut, end, distancePrecision)
    ensures CutIsExact(cut, Rise(beg, end), distancePrecision)
  {
    DifferenceIsExact(cut, end, beg, Rise(beg, end), distancePrecision);
  }

  /** A connecting traverse of matching sizes is the shared pipeline aimed at the known end point. */
  lemma ConnectingIsTraverse(left: seq<Angle>, dist: seq<real>, angleBeg: Angle, angleEnd: Angle,
                             xBeg: real, yBeg: real, xEnd: real, yEnd: real,
                             anglePrecision: int, distancePrecision: int, num: Numerics, threshold: real)
    requires |left| == |dist| + 1
    ensures ConnectingTraverse(left, dist, angleBeg, angleEnd, xBeg, yBeg, xEnd, yEnd,
                               anglePrecision, distancePrecision, num, threshold)
         == Traverse(left, dist, angleBeg, ConnectingExpected(|left|, angleBeg, angleEnd), 1, xBeg, yBeg,
                     Rise(xBeg, xEnd), Rise(yBeg, yEnd), anglePrecision, distancePrecision, num, threshold)
  {
  }

  /** Under the conditions of ClosedTraverseCloses, closedTraverseAssert holds for any positive thresholds. */
  lemma ClosedTraverseAssertHolds(left: seq<Angle>, dist: seq<real>, angleBeg: Angle, xBeg: real, yBeg: real,
                                  anglePrecision: int, distancePrecision: int, num: Numerics, threshold: real,
                                  coordinateThreshold: real, angleThreshold: real)
    requires ClosedTraverse(left, dist, angleBeg, xBeg, yBeg, anglePrecision, distancePrecision, num, threshold).Ok?
    requires |left| > 0 && threshold <= Unit(anglePrecision) && threshold <= Unit(distancePrecision)
    requires KeepsWholeUnits(num.cut, anglePrecision) && KeepsWholeUnits(num.cut, distancePrecision)
    requires CutIsExact(num.cut, xBeg, distancePrecision) && CutIsExact(num.cut, yBeg, distancePrecision)
    requires CutIsExact(num.cut, AngleMisclosure(AngleSum(left), ClosedExpected(|left|)), anglePrecision)
    requires coordinateThreshold > 0.0 && angleThreshold > 0.0
    ensures ClosedTraverseAssert(ClosedTraverse(left, dist, angleBeg, xBeg, yBeg, anglePrecision, distancePrecision,
                                                num, threshold).value, coordinateThreshold, angleThreshold)
  {
    ClosedTraverseCloses(left, dist, angleBeg, xBeg, yBeg, anglePrecision, distancePrecision, num, threshold);
  }

  // ---------------------------------------------------------------------------
  // The adjustment as the source runs it, loop by loop over vectors

  /** The corrected-angle loop: each left angle plus its correction in seconds. */
  method CorrectAnglesLoop(left: seq<Angle>, counts: seq<int>, anglePrecision: int) returns (corrected: seq<Angle>)
    requires |left| == |counts|
    ensures corrected == CorrectedAngles(left, counts, anglePrecision)
  {
    var a := new Angle[|left|];
    for i := 0 to |left|
      invariant forall j :: 0 <= j < i ==> a[j] == CorrectAngle(left[j], counts[j], anglePrecision)
    {
      a[i] := Add(left[i], FromSeconds(Units(counts[i], anglePrecision)));
    }
    corrected := a[..];
  }

  /** The azimuth loop: each azimuth is std() of the previous one plus the corrected angle minus pi. */
  method AzimuthLoop(angleBeg: Angle, corrected: seq<Angle>) returns (azimuth: seq<Angle>)
    ensures azimuth == Azimuths(angleBeg, corrected)
  {
    var n := |corrected|;
    var az := new Angle[n + 1];
    az[0] := angleBeg;
    for i := 0 to n
      invariant az[..i + 1] == Azimuths(angleBeg, corrected[..i])
    {
      var next := Std(Sub(Add(az[i], corrected[i]), SinglePi()));
      assert corrected[..i + 1][..i] == corrected[..i];
      az[i + 1] := next;
      assert az[..i + 2] == az[..i + 1] + [next];
    }
    assert corrected[..n] == corrected;
    azimuth := az[..];
  }

  /** The coordinate-difference loop: both axes of leg i, from azimuth i + offset. */
  method DeltaLoop(dist: seq<real>, azimuth: seq<Angle>, offset: nat, distancePrecision: int, num: Numerics)
    returns (dx: seq<int>, dy: seq<int>)
    requires |dist| + offset <= |azimuth|
    ensures dx == Deltas(dist, azimuth, offset, num.cos, distancePrecision, num.cut)
    ensures dy == Deltas(dist, azimuth, offset, num.sin, distancePrecision, num.cut)
  {
    var cos, sin, cut := num.cos, num.sin, num.cut;
    ghost var xs := Deltas(dist, azimuth, offset, cos, distancePrecision, cut);
    ghost var ys := Deltas(dist, azimuth, offset, sin, distancePrecision, cut);
    var ax := new int[|dist|];
    var ay := new int[|dist|];
    for i := 0 to |dist|
      invariant forall j :: 0 <= j < i ==> ax[j] == xs[j]
      invariant forall j :: 0 <= j < i ==> ay[j] == ys[j]
    {
      var ex := Delta(dist[i], azimuth[i + offset], cos, distancePrecision, cut);
      var ey := Delta(dist[i], azimuth[i + offset], sin, distancePrecision, cut);
      assert ex == xs[i] && ey == ys[i];
      ax[i], ay[i] := ex, ey;
    }
    assert ax[..] == xs;
    assert ay[..] == ys;
    dx, dy := ax[..], ay[..];
  }

  /** The correction loop: both axes' shares of their misclosures, in proportion to the leg lengths. */
  method ShareLoop(dist: seq<real>, distanceSum: real, fx: real, fy: real, distancePrecision: int, cut: Cut)
    returns (cx: array<int>, cy: array<int>)
    requires distanceSum != 0.0 || |dist| == 0
    ensures fresh(cx) && fresh(cy) && cx != cy
    ensures |dist| == 0 ==> cx[..] == [] && cy[..] == []
    ensures |dist| > 0 ==> cx[..] == LegShares(dist, distanceSum, fx, distancePrecision, cut) &&
                           cy[..] == LegShares(dist, distanceSum, fy, distancePrecision, cut)
  {
    cx := new int[|dist|];
    cy := new int[|dist|];
    for i := 0 to |dist|
      invariant forall j :: 0 <= j < i ==> cx[j] == LegShare(dist[j], distanceSum, fx, distancePrecision, cut)
      invariant forall j :: 0 <= j < i ==> cy[j] == LegShare(dist[j], distanceSum, fy, distancePrecision, cut)
    {
      var ex := cut(dist[i] / distanceSum * -fx, distancePrecision);
      var ey := cut(dist[i] / distanceSum * -fy, distancePrecision);
      assert ex == LegShare(dist[i], distanceSum, fx, distancePrecision, cut);
      assert ey == LegShare(dist[i], distanceSum, fy, distancePrecision, cut);
      cx[i], cy[i] := ex, ey;
    }
  }

  /** The corrected-difference loop: each difference plus its correction, cut, on both axes. */
  method CorrectDeltaLoop(dx: seq<int>, dy: seq<int>, cx: seq<int>, cy: seq<int>, distancePrecision: int, cut: Cut)
    returns (kx: seq<int>, ky: seq<int>)
    requires |dx| == |cx| && |dy| == |cy| && |dx| == |dy|
    ensures kx == CorrectedDeltas(dx, cx, distancePrecision, cut)
    ensures ky == CorrectedDeltas(dy, cy, distancePrecision, cut)
  {
    var ax := new int[|dx|];
    var ay := new int[|dx|];
    for i := 0 to |dx|
      invariant forall j :: 0 <= j < i ==> ax[j] == CorrectDelta(dx[j], cx[j], distancePrecision, cut)
      invariant forall j :: 0 <= j < i ==> ay[j] == CorrectDelta(dy[j], cy[j], distancePrecision, cut)
    {
      ax[i] := cut(Units(dx[i], distancePrecision) + Units(cx[i], distancePrecision), distancePrecision);
      ay[i] := cut(Units(dy[i], distancePrecision) + Units(cy[i], distancePrecision), distancePrecision);
    }
    kx, ky := ax[..], ay[..];
  }

  /** A prefix of the coordinates grows by the next coordinate when the prefix of the differences grows by one. */
  lemma CoordinatesPrefixStep(beg: real, corrected: seq<int>, distancePrecision: int, cut: Cut, i: nat)
    requires i < |corrected|
    ensures var prev := Coordinates(beg, corrected[..i], distancePrecision, cut);
            Coordinates(beg, corrected[..i + 1], distancePrecision, cut) ==
            prev + [NextCoordinate(prev[i], corrected[i], distancePrecision, cut)]
  {
    assert corrected[..i + 1][..i] == corrected[..i];
  }

  /** The coordinate loop: each point is the previous one plus the corrected difference, cut, on both axes. */
  method CoordinateLoop(xBeg: real, yBeg: real, kx: seq<int>, ky: seq<int>, distancePrecision: int, cut: Cut)
    returns (xs: seq<real>, ys: seq<real>)
    requires |kx| == |ky|
    ensures xs == Coordinates(xBeg, kx, distancePrecision, cut)
    ensures ys == Coordinates(yBeg, ky, distancePrecision, cut)
  {
    var n := |kx|;
    var x := new real[n + 1];
    var y := new real[n + 1];
    x[0], y[0] := xBeg, yBeg;
    for i := 0 to n
      invariant x[..i + 1] == Coordinates(xBeg, kx[..i], distancePrecision, cut)
      invariant y[..i + 1] == Coordinates(yBeg, ky[..i], distancePrecision, cut)
    {
      var nx := NextCoordinate(x[i], kx[i], distancePrecision, cut);
      var ny := NextCoordinate(y[i], ky[i], distancePrecision, cut);
      CoordinatesPrefixStep(xBeg, kx, distancePrecision, cut, i);
      CoordinatesPrefixStep(yBeg, ky, distancePrecision, cut, i);
      x[i + 1] := nx;
      assert x[..i + 2] == x[..i + 1] + [nx];
      y[i + 1] := ny;
      assert y[..i + 2] == y[..i + 1] + [ny];
    }
    assert kx[..n] == kx && ky[..n] == ky;
    xs, ys := x[..], y[..];
  }

  /**
   * The angular part: the uniform corrections are redistributed in place to sum to
   * -f_beta, then added to the left angles.
   */
  method AngleRun(left: seq<Angle>, expected: real, anglePrecision: int, cut: Cut, threshold: real)
    returns (r: Result<AngleStage>)
    ensures r == AdjustAngles(left, expected, anglePrecision, cut, threshold)
  {
    var p := anglePrecision;
    var leftSum := AngleSum(left);
    var fBeta := cut(AngleMisclosure(leftSum, expected), p);
    var correction := new int[|left|];
    if |left| > 0 {
      var share := AngleShare(fBeta, |left|, p, cut);
      correction := new int[|left|](_ => share);
    }
    assert correction[..] == UniformCorrections(fBeta, |left|, p, cut);
    var outcome := AdjustSumToTarget(correction, Units(Sum(correction[..]), p), -Units(fBeta, p), p, cut, threshold);
    if outcome.Fail? {
      return Err(outcome.error);
    }
    var corrected := CorrectAnglesLoop(left, correction[..], p);
    r := Ok(AngleStage(leftSum, fBeta, correction[..], corrected, AngleSum(corrected)));
  }

  /** The steps of one axis once the legs can be shared: the shares are redistributed, or their failure reported. */
  lemma AdjustAxisSteps(dist: seq<real>, delta: seq<int>, known: real, beg: real, distancePrecision: int,
                        cut: Cut, threshold: real)
    requires |dist| == |delta| && (SumReal(dist) != 0.0 || |dist| == 0)
    ensures var p := distancePrecision;
            var f := AxisMisclosure(delta, known, p);
            var initial := if |dist| == 0 then [] else LegShares(dist, SumReal(dist), f, p, cut);
            var adjusted := SumToTarget(initial, AxisExcess(Sum(initial), f, p, cut), p, threshold, cut);
            AdjustAxis(dist, delta, known, beg, p, cut, threshold) ==
              if adjusted.Err? then Err(adjusted.error)
              else Ok(AxisStage(delta, f, adjusted.value, CorrectedDeltas(delta, adjusted.value, p, cut),
                                Coordinates(beg, CorrectedDeltas(delta, adjusted.value, p, cut), p, cut)))
  {
  }

  /** adjustSumToTarget on one axis's shares, aimed at minus its misclosure f. */
  method RedistributeShares(shares: array<int>, f: real, distancePrecision: int, cut: Cut, threshold: real)
    returns (o: Outcome)
    modifies shares
    ensures var p := distancePrecision;
            var e := SumToTarget(old(shares[..]), AxisExcess(Sum(old(shares[..])), f, p, cut), p, threshold, cut);
            (e.Ok? ==> o == Pass && shares[..] == e.value) && (e.Err? ==> o == Fail(e.error))
  {
    o := AdjustSumToTarget(shares, Units(Sum(shares[..]), distancePrecision), -f, distancePrecision, cut, threshold);
  }

  /**
   * Both axes from their differences on: the shares of each misclosure, redistributed in
   * place first on x and then on y, the corrected differences and the coordinates. The
   * first axis whose redistribution fails ends the run.
   */
  method AxesRun(dist: seq<real>, dx: seq<int>, dy: seq<int>, knownX: real, knownY: real, xBeg: real, yBeg: real,
                 distancePrecision: int, cut: Cut, threshold: real)
    returns (r: Result<(AxisStage, AxisStage)>)
    requires |dist| == |dx| == |dy| && (SumReal(dist) != 0.0 || |dist| == 0)
    ensures var x := AdjustAxis(dist, dx, knownX, xBeg, distancePrecision, cut, threshold);
            var y := AdjustAxis(dist, dy, knownY, yBeg, distancePrecision, cut, threshold);
            r == if x.Err? then Err(x.error) else if y.Err? then Err(y.error) else Ok((x.value, y.value))
  {
    var p := distancePrecision;
    var fx, fy := AxisMisclosure(dx, knownX, p), AxisMisclosure(dy, knownY, p);
    var cx, cy := ShareLoop(dist, SumReal(dist), fx, fy, p, cut);
    AdjustAxisSteps(dist, dx, knownX, xBeg, p, cut, threshold);
    AdjustAxisSteps(dist, dy, knownY, yBeg, p, cut, threshold);
    var ox := RedistributeShares(cx, fx, p, cut, threshold);
    if ox.Fail? {
      return Err(ox.error);
    }
    var oy := RedistributeShares(cy, fy, p, cut, threshold);
    if oy.Fail? {
      return Err(oy.error);
    }
    var kx, ky := CorrectDeltaLoop(dx, dy, cx[..], cy[..], p, cut);
    var xs, ys := CoordinateLoop(xBeg, yBeg, kx, ky, p, cut);
    r := Ok((AxisStage(dx, fx, cx[..], kx, xs), AxisStage(dy, fy, cy[..], ky, ys)));
  }

  /**
   * The pipeline both traverses share, step by step: angles, azimuths, differences, then
   * both axes. A zero total distance with legs to correct is reported before the shares.
   */
  method TraverseRun(left: seq<Angle>, dist: seq<real>, angleBeg: Angle, expected: real, offset: nat,
                     xBeg: real, yBeg: real, knownX: real, knownY: real,
                     anglePrecision: int, distancePrecision: int, num: Numerics, threshold: real)
    returns (r: Result<TraverseReport>)
    requires |dist| + offset <= |left|
    ensures r == Traverse(left, dist, angleBeg, expected, offset, xBeg, yBeg, knownX, knownY,
                          anglePrecision, distancePrecision, num, threshold)
  {
    var p := distancePrecision;
    var angles := AngleRun(left, expected, anglePrecision, num.cut, threshold);
    if angles.Err? {
      return Err(angles.error);
    }
    var distanceSum := SumReal(dist);
    var az := AzimuthLoop(angleBeg, angles.value.corrected);
    var dx, dy := DeltaLoop(dist, az, offset, p, num);
    var fx, fy := AxisMisclosure(dx, knownX, p), AxisMisclosure(dy, knownY, p);
    var total := TotalMisclosure(fx, fy, distanceSum, p, num);
    if distanceSum == 0.0 && |dist| > 0 {
      return Err(NonFinite);
    }
    var axes := AxesRun(dist, dx, dy, knownX, knownY, xBeg, yBeg, p, num.cut, threshold);
    if axes.Err? {
      return Err(axes.error);
    }
    r := Ok(TraverseReport(angles.value, az, expected, num.tolerance(|left| as real, distanceSum), distanceSum,
                           axes.value.0, axes.value.1, total.0, total.1));
  }

  /** closedTraverseAdjust as the source runs it: the size check, then the shared pipeline. */
  method ClosedTraverseAdjust(left: seq<Angle>, dist: seq<real>, angleBeg: Angle, xBeg: real, yBeg: real,
                              anglePrecision: int, distancePrecision: int, num: Numerics, threshold: real)
    returns (r: Result<TraverseReport>)
    ensures r == ClosedTraverse(left, dist, angleBeg, xBeg, yBeg, anglePrecision, distancePrecision, num, threshold)
  {
    if |left| != |dist| {
      return Err(InvalidArgument);
    }
    r := TraverseRun(left, dist, angleBeg, ClosedExpected(|left|), 0, xBeg, yBeg, 0.0, 0.0,
                     anglePrecision, distancePrecision, num, threshold);
  }

  /** connectingTraverseAdjust as the source runs it: the size check, then the shared pipeline. */
  method ConnectingTraverseAdjust(left: seq<Angle>, dist: seq<real>, angleBeg: Angle, angleEnd: Angle,
                                  xBeg: real, yBeg: real, xEnd: real, yEnd: real,
                                  anglePrecision: int, distancePrecision: int, num: Numerics, threshold: real)
    returns (r: Result<TraverseReport>)
    ensures r == ConnectingTraverse(left, dist, angleBeg, angleEnd, xBeg, yBeg, xEnd, yEnd,
                                    anglePrecision, distancePrecision, num, threshold)
  {
    if |left| == 0 || |left| - 1 != |dist| {
      return Err(InvalidArgument);
    }
    r := TraverseRun(left, dist, angleBeg, ConnectingExpected(|left|, angleBeg, angleEnd), 1, xBeg, yBeg,
                     Rise(xBeg, xEnd), Rise(yBeg, yEnd), anglePrecision, distancePrecision, num, threshold);
  }
}

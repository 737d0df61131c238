/**
 * Closed and attached levelling lines: the misclosure of the measured height
 * differences is distributed over the legs in proportion to their lengths, the
 * rounding remainder is redistributed one unit at a time, and the elevations are the
 * running sums of the corrected differences.
 */
module ElevAdjust {
  import opened Wrappers
  import opened Reals
  import opened ClosureUtils

  /** The numbers an adjustment reports; corrections are in the working unit (metres). */
  datatype LevellingResult = LevellingResult(
    closure: real,
    tolerance: real,
    distanceSum: real,
    diffSum: real,
    correctionSum: real,
    meanCorrection: Option<real>,
    corrections: seq<real>,
    correctedDiff: seq<real>,
    elev: seq<real>)

  /** One leg's share of the correction, in units: its distance times the mean correction, cut. */
  function Share(distance: real, mean: real, precision: int, cut: Cut): int
  {
    cut(distance * mean, precision)
  }

  /** The initial corrections, one share per leg. */
  function Proportional(dist: seq<real>, mean: real, precision: int, cut: Cut): (c: seq<int>)
    ensures |c| == |dist|
  {
    seq(|dist|, i requires 0 <= i < |dist| => Share(dist[i], mean, precision, cut))
  }

  /** Counts of correction units as values. */
  function Scaled(c: seq<int>, precision: int): (v: seq<real>)
    ensures |v| == |c|
  {
    seq(|c|, i requires 0 <= i < |c| => Units(c[i], precision))
  }

  /** Element-wise sum of two sequences of the same length. */
  function Plus(a: seq<real>, b: seq<real>): (v: seq<real>)
    requires |a| == |b|
    ensures |v| == |a|
  {
    seq(|a|, i requires 0 <= i < |a| => a[i] + b[i])
  }

  /** The running elevations: the start, then each previous elevation plus the next difference. */
  function Elevations(beg: real, d: seq<real>): (e: seq<real>)
    ensures |e| == |d| + 1 && e[0] == beg
  {
    if |d| == 0 then [beg]
    else
      var prev := Elevations(beg, d[..|d| - 1]);
      prev + [prev[|d| - 1] + d[|d| - 1]]
  }

  /** Each elevation is the previous one plus the corrected difference between them. */
  lemma {:induction false} ElevationsStep(beg: real, d: seq<real>, i: nat)
    requires i < |d|
    ensures Elevations(beg, d)[i + 1] == Elevations(beg, d)[i] + d[i]
  {
    if i < |d| - 1 {
      ElevationsStep(beg, d[..|d| - 1], i);
    }
  }

  /** The last elevation is the start plus the sum of all differences. */
  lemma {:induction false} ElevationsLast(beg: real, d: seq<real>)
    ensures Elevations(beg, d)[|d|] == beg + SumReal(d)
  {
    if |d| > 0 {
      ElevationsLast(beg, d[..|d| - 1]);
    }
  }

  /** Sums distribute over element-wise addition. */
  lemma {:induction false} SumPlus(a: seq<real>, b: seq<real>)
    requires |a| == |b|
    ensures SumReal(Plus(a, b)) == SumReal(a) + SumReal(b)
  {
    if |a| > 0 {
      SumPlus(a[..|a| - 1], b[..|b| - 1]);
      assert Plus(a, b)[..|a| - 1] == Plus(a[..|a| - 1], b[..|b| - 1]);
    }
  }

  /** The values of the counts add up to the value of their sum. */
  lemma {:induction false} SumScaled(c: seq<int>, precision: int)
    ensures SumReal(Scaled(c, precision)) == Units(Sum(c), precision)
  {
    if |c| == 0 {
      UnitsSign(0, precision);
    } else {
      SumScaled(c[..|c| - 1], precision);
      assert Scaled(c, precision)[..|c| - 1] == Scaled(c[..|c| - 1], precision) by {
        forall k | 0 <= k < |c| - 1
          ensures Scaled(c, precision)[k] == Scaled(c[..|c| - 1], precision)[k]
        {
        }
      }
      UnitsAdd(Sum(c[..|c| - 1]), c[|c| - 1], precision);
    }
  }

  /**
   * The mean correction per unit of distance, as a count of units; None when the total
   * distance is zero and the division yields no finite value.
   */
  function MeanCorrection(dist: seq<real>, target: int, precision: int, cut: Cut): (m: Option<int>)
    ensures m.None? <==> SumReal(dist) == 0.0
  {
    var distanceSum := SumReal(dist);
    if distanceSum == 0.0 then None else Some(cut(Units(target, precision) / distanceSum, precision))
  }

  /** The corrections before redistribution: proportional to each leg's distance. */
  function InitialCorrections(dist: seq<real>, mean: Option<int>, precision: int, cut: Cut): (c: seq<int>)
    ensures |c| == if mean.Some? then |dist| else 0
  {
    if mean.Some? then Proportional(dist, Units(mean.value, precision), precision, cut) else []
  }

  /** The report once the correction counts are final. */
  function Assemble(dist: seq<real>, diff: seq<real>, beg: real, closure: real, target: int, precision: int,
                    tolFn: real -> real, mean: Option<int>, counts: seq<int>): (res: LevellingResult)
    requires |counts| == |diff|
    ensures res.closure == closure && res.tolerance == tolFn(SumReal(dist))
    ensures res.correctionSum == Units(target, precision)
    ensures |res.corrections| == |diff| && |res.correctedDiff| == |diff| && |res.elev| == |diff| + 1
    ensures res.elev[0] == beg
  {
    var corrections := Scaled(counts, precision);
    var corrected := Plus(diff, corrections);
    LevellingResult(
      closure, CalcTolerance(dist, tolFn), SumReal(dist), SumReal(diff), Units(target, precision),
      if mean.Some? then Some(Units(mean.value, precision)) else None,
      corrections, corrected, Elevations(beg, corrected))
  }

  /**
   * The arithmetic both levelling variants share once the closure is known: target,
   * mean correction, proportional corrections, redistribution, corrected differences and
   * elevations. A zero total distance makes the mean a NaN; with legs to correct that
   * NaN would reach every correction, which the model reports as NonFinite.
   */
  function Levelling(dist: seq<real>, diff: seq<real>, beg: real, closure: real, precision: int,
                     tolFn: real -> real, cut: Cut, threshold: real): (r: Result<LevellingResult>)
    requires |dist| == |diff|
    ensures r.Ok? ==> r.value.closure == closure && r.value.tolerance == tolFn(SumReal(dist))
    ensures r.Ok? ==> |r.value.corrections| == |dist| && |r.value.correctedDiff| == |dist| &&
                      |r.value.elev| == |dist| + 1 && r.value.elev[0] == beg
    ensures r == Err(NonFinite) <==> |dist| > 0 && SumReal(dist) == 0.0
    ensures r.Err? ==> r.error == NonFinite || r.error == OutOfRange
  {
    var target := cut(-closure, precision);
    var mean := MeanCorrection(dist, target, precision, cut);
    if mean.None? && |dist| > 0 then Err(NonFinite)
    else
      var initial := InitialCorrections(dist, mean, precision, cut);
      var adjusted := SumToTarget(initial, cut(Units(Sum(initial), precision) - Units(target, precision), precision), precision, threshold, cut);
      if adjusted.Err? then Err(adjusted.error)
      else Ok(Assemble(dist, diff, beg, closure, target, precision, tolFn, mean, adjusted.value))
  }

  /** The closure of a closed line: its differences accumulated from zero, which is their sum. */
  function ClosedClosure(diff: seq<real>): (c: real)
    ensures c == SumReal(diff)
  {
    AccumulateIsSum(diff, 0.0);
    Accumulate(diff, 0.0)
  }

  /** The closure of an attached line: its accumulated differences less the known rise from beg to end. */
  function AttachedClosure(diff: seq<real>, beg: real, end: real): (c: real)
    ensures c == SumReal(diff) - (end - beg)
  {
    AccumulateIsSum(diff, 0.0);
    Accumulate(diff, 0.0) - (end - beg)
  }

  /** closedElevAdjust: the closure of a loop is the sum of its differences. */
  function ClosedLevelling(dist: seq<real>, diff: seq<real>, beg: real, precision: int,
                           tolFn: real -> real, cut: Cut, threshold: real): (r: Result<LevellingResult>)
    ensures |dist| != |diff| <==> r == Err(InvalidArgument)
    ensures r.Ok? ==> r.value.closure == SumReal(diff) && r.value.tolerance == tolFn(SumReal(dist))
  {
    if |dist| != |diff| then Err(InvalidArgument)
    else Levelling(dist, diff, beg, ClosedClosure(diff), precision, tolFn, cut, threshold)
  }

  /** attachedElevAdjust: the closure is the sum of the differences less the known rise from beg to end. */
  function AttachedLevelling(dist: seq<real>, diff: seq<real>, beg: real, end: real, precision: int,
                             tolFn: real -> real, cut: Cut, threshold: real): (r: Result<LevellingResult>)
    ensures |dist| != |diff| <==> r == Err(InvalidArgument)
    ensures r.Ok? ==> r.value.closure == SumReal(diff) - (end - beg) && r.value.tolerance == tolFn(SumReal(dist))
  {
    if |dist| != |diff| then Err(InvalidArgument)
    else Levelling(dist, diff, beg, AttachedClosure(diff, beg, end), precision, tolFn, cut, threshold)
  }

  /** A run whose redistribution succeeds reports the redistributed counts. */
  lemma {:induction false} LevellingSuccess(dist: seq<real>, diff: seq<real>, beg: real, closure: real, precision: int,
                                            tolFn: real -> real, cut: Cut, threshold: real, counts: seq<int>)
    requires |dist| == |diff|
    requires var target := cut(-closure, precision);
             var mean := MeanCorrection(dist, target, precision, cut);
             var initial := InitialCorrections(dist, mean, precision, cut);
             (mean.Some? || |dist| == 0) &&
             SumToTarget(initial, cut(Units(Sum(initial), precision) - Units(target, precision), precision), precision, threshold, cut) == Ok(counts)
    ensures var target := cut(-closure, precision);
            Levelling(dist, diff, beg, closure, precision, tolFn, cut, threshold) ==
              Ok(Assemble(dist, diff, beg, closure, target, precision, tolFn, MeanCorrection(dist, target, precision, cut), counts))
  {
  }

  /** In the report, the corrections add up to the counts' sum and the last elevation adds everything up. */
  lemma {:induction false} AssembleSums(dist: seq<real>, diff: seq<real>, beg: real, closure: real, target: int, precision: int,
                     tolFn: real -> real, mean: Option<int>, counts: seq<int>)
    requires |counts| == |diff|
    ensures var res := Assemble(dist, diff, beg, closure, target, precision, tolFn, mean, counts);
            SumReal(res.corrections) == Units(Sum(counts), precision) &&
            res.elev[|diff|] == beg + SumReal(diff) + SumReal(res.corrections)
  {
    var res := Assemble(dist, diff, beg, closure, target, precision, tolFn, mean, counts);
    SumScaled(counts, precision);
    ElevationsLast(beg, res.correctedDiff);
    SumPlus(diff, res.corrections);
  }

  /** Unfolds Levelling for a successful run. */
  lemma {:induction false} LevellingUnfold(dist: seq<real>, diff: seq<real>, beg: real, closure: real, precision: int,
                                           tolFn: real -> real, cut: Cut, threshold: real)
    requires |dist| == |diff|
    requires Levelling(dist, diff, beg, closure, precision, tolFn, cut, threshold).Ok?
    ensures var target := cut(-closure, precision);
            var mean := MeanCorrection(dist, target, precision, cut);
            var initial := InitialCorrections(dist, mean, precision, cut);
            var adjusted := SumToTarget(initial, cut(Units(Sum(initial), precision) - Units(target, precision), precision), precision, threshold, cut);
            (|dist| > 0 ==> |initial| > 0) && adjusted.Ok? &&
            Levelling(dist, diff, beg, closure, precision, tolFn, cut, threshold) ==
              Ok(Assemble(dist, diff, beg, closure, target, precision, tolFn, mean, adjusted.value))
  {
  }

  /**
   * The last elevation is the start plus the differences and the corrections; with at
   * least one leg and a threshold no larger than the unit, the corrections add up to the
   * reported correction sum, cut(-closure).
   */
  lemma {:induction false} LevellingCloses(dist: seq<real>, diff: seq<real>, beg: real, closure: real, precision: int,
                                           tolFn: real -> real, cut: Cut, threshold: real)
    requires |dist| == |diff|
    requires Levelling(dist, diff, beg, closure, precision, tolFn, cut, threshold).Ok?
    ensures var res := Levelling(dist, diff, beg, closure, precision, tolFn, cut, threshold).value;
            res.elev[|dist|] == beg + SumReal(diff) + SumReal(res.corrections)
  {
    var target := cut(-closure, precision);
    var mean := MeanCorrection(dist, target, precision, cut);
    var initial := InitialCorrections(dist, mean, precision, cut);
    LevellingUnfold(dist, diff, beg, closure, precision, tolFn, cut, threshold);
    var dif := cut(Units(Sum(initial), precision) - Units(target, precision), precision);
    var counts := SumToTarget(initial, dif, precision, threshold, cut).value;
    var res := Levelling(dist, diff, beg, closure, precision, tolFn, cut, threshold).value;
    assert res == Assemble(dist, diff, beg, closure, target, precision, tolFn, mean, counts);
    AssembleSums(dist, diff, beg, closure, target, precision, tolFn, mean, counts);
  }

  /**
   * With at least one leg and a threshold no larger than the unit, the corrections add
   * up to exactly the reported correction sum, cut(-closure).
   */
  lemma {:induction false} LevellingCorrectionSum(dist: seq<real>, diff: seq<real>, beg: real, closure: real, precision: int,
                                                  tolFn: real -> real, cut: Cut, threshold: real)
    requires |dist| == |diff| && |dist| > 0 && threshold <= Unit(precision) && KeepsWholeUnits(cut, precision)
    requires Levelling(dist, diff, beg, closure, precision, tolFn, cut, threshold).Ok?
    ensures var res := Levelling(dist, diff, beg, closure, precision, tolFn, cut, threshold).value;
            SumReal(res.corrections) == res.correctionSum
  {
    var target := cut(-closure, precision);
    var mean := MeanCorrection(dist, target, precision, cut);
    var initial := InitialCorrections(dist, mean, precision, cut);
    LevellingUnfold(dist, diff, beg, closure, precision, tolFn, cut, threshold);
    var dif := cut(Units(Sum(initial), precision) - Units(target, precision), precision);
    var counts := SumToTarget(initial, dif, precision, threshold, cut).value;
    var res := Levelling(dist, diff, beg, closure, precision, tolFn, cut, threshold).value;
    assert res == Assemble(dist, diff, beg, closure, target, precision, tolFn, mean, counts);
    assert SumReal(res.corrections) == Units(Sum(counts), precision) && res.correctionSum == Units(target, precision) by {
      AssembleSums(dist, diff, beg, closure, target, precision, tolFn, mean, counts);
    }
    assert Sum(counts) == target by {
      DifferenceOfCounts(cut, Sum(initial), target, precision);
      AdjustReachesTarget(initial, dif, precision, threshold, cut);
    }
  }

  /** The reported correction sum is the closure's negation rounded by cut. */
  lemma {:induction false} LevellingReportsCut(dist: seq<real>, diff: seq<real>, beg: real, closure: real, precision: int,
                                               tolFn: real -> real, cut: Cut, threshold: real)
    requires |dist| == |diff|
    requires Levelling(dist, diff, beg, closure, precision, tolFn, cut, threshold).Ok?
    ensures Levelling(dist, diff, beg, closure, precision, tolFn, cut, threshold).value.correctionSum ==
            Units(cut(-closure, precision), precision)
  {
    LevellingUnfold(dist, diff, beg, closure, precision, tolFn, cut, threshold);
  }

  /**
   * When cut returns the negated closure exactly, the adjusted line absorbs the whole
   * closure: the last elevation is the start plus the differences less the closure.
   */
  lemma {:induction false} LevellingAbsorbsClosure(dist: seq<real>, diff: seq<real>, beg: real, closure: real, precision: int,
                                                   tolFn: real -> real, cut: Cut, threshold: real)
    requires |dist| == |diff| && |dist| > 0 && threshold <= Unit(precision)
    requires Levelling(dist, diff, beg, closure, precision, tolFn, cut, threshold).Ok?
    requires KeepsWholeUnits(cut, precision) && CutIsExact(cut, -closure, precision)
    ensures Levelling(dist, diff, beg, closure, precision, tolFn, cut, threshold).value.elev[|dist|] ==
            beg + SumReal(diff) - closure
  {
    var res := Levelling(dist, diff, beg, closure, precision, tolFn, cut, threshold).value;
    assert res.elev[|dist|] == beg + SumReal(diff) + SumReal(res.corrections) by {
      LevellingCloses(dist, diff, beg, closure, precision, tolFn, cut, threshold);
    }
    assert SumReal(res.corrections) == res.correctionSum by {
      LevellingCorrectionSum(dist, diff, beg, closure, precision, tolFn, cut, threshold);
    }
    assert res.correctionSum == -closure by {
      LevellingReportsCut(dist, diff, beg, closure, precision, tolFn, cut, threshold);
    }
  }

  /** A closed line, once adjusted, ends at the elevation it started from. */
  lemma {:induction false} ClosedLevellingReturnsToStart(dist: seq<real>, diff: seq<real>, beg: real, precision: int,
                                                         tolFn: real -> real, cut: Cut, threshold: real)
    requires ClosedLevelling(dist, diff, beg, precision, tolFn, cut, threshold).Ok?
    requires |dist| > 0 && threshold <= Unit(precision)
    requires KeepsWholeUnits(cut, precision) && CutIsExact(cut, -SumReal(diff), precision)
    ensures ClosedLevelling(dist, diff, beg, precision, tolFn, cut, threshold).value.elev[|dist|] == beg
  {
    var c := ClosedClosure(diff);
    assert |dist| == |diff| && c == SumReal(diff);
    assert ClosedLevelling(dist, diff, beg, precision, tolFn, cut, threshold) ==
           Levelling(dist, diff, beg, c, precision, tolFn, cut, threshold);
    LevellingAbsorbsClosure(dist, diff, beg, c, precision, tolFn, cut, threshold);
  }

  /** An attached line, once adjusted, ends at the known end elevation. */
  lemma {:induction false} AttachedLevellingReachesEnd(dist: seq<real>, diff: seq<real>, beg: real, end: real, precision: int,
                                                       tolFn: real -> real, cut: Cut, threshold: real)
    requires AttachedLevelling(dist, diff, beg, end, precision, tolFn, cut, threshold).Ok?
    requires |dist| > 0 && threshold <= Unit(precision)
    requires KeepsWholeUnits(cut, precision) && CutIsExact(cut, -(SumReal(diff) - (end - beg)), precision)
    ensures AttachedLevelling(dist, diff, beg, end, precision, tolFn, cut, threshold).value.elev[|dist|] == end
  {
    var c := AttachedClosure(diff, beg, end);
    assert |dist| == |diff| && c == SumReal(diff) - (end - beg);
    assert AttachedLevelling(dist, diff, beg, end, precision, tolFn, cut, threshold) ==
           Levelling(dist, diff, beg, c, precision, tolFn, cut, threshold);
    LevellingAbsorbsClosure(dist, diff, beg, c, precision, tolFn, cut, threshold);
  }

  // ---------------------------------------------------------------------------
  // The adjustment as the source runs it, loop by loop over vectors

  /** The correction loop: each leg's distance times the mean correction, cut. */
  method ShareLoop(dist: seq<real>, mean: real, precision: int, cut: Cut) returns (corrections: array<int>)
    ensures fresh(corrections)
    ensures corrections[..] == Proportional(dist, mean, precision, cut)
  {
    corrections := new int[|dist|];
    for idx := 0 to |dist|
      invariant forall j :: 0 <= j < idx ==> corrections[j] == Share(dist[j], mean, precision, cut)
    {
      corrections[idx] := Share(dist[idx], mean, precision, cut);
    }
  }

  /** The corrected-difference loop: each measured difference plus its correction. */
  method CorrectedDiffLoop(diff: seq<real>, counts: seq<int>, precision: int) returns (corrected: seq<real>)
    requires |diff| == |counts|
    ensures corrected == Plus(diff, Scaled(counts, precision))
  {
    var a := new real[|diff|];
    for idx := 0 to |diff|
      invariant forall j :: 0 <= j < idx ==> a[j] == diff[j] + Units(counts[j], precision)
    {
      a[idx] := diff[idx] + Units(counts[idx], precision);
    }
    corrected := a[..];
  }

  /** The elevation loop: each elevation is the previous one plus the next corrected difference. */
  method ElevationLoop(beg: real, corrected: seq<real>) returns (elev: seq<real>)
    ensures elev == Elevations(beg, corrected)
  {
    var n := |corrected|;
    var e := new real[n + 1];
    e[0] := beg;
    for idx := 0 to n
      invariant e[..idx + 1] == Elevations(beg, corrected[..idx])
    {
      var next := e[idx] + corrected[idx];
      assert corrected[..idx + 1][..idx] == corrected[..idx];
      e[idx + 1] := next;
      assert e[..idx + 2] == e[..idx + 1] + [next];
    }
    assert corrected[..n] == corrected;
    elev := e[..];
  }

  /**
   * The arithmetic both variants share, step by step: the correction sum and the mean,
   * the correction loop, the redistribution in place, then the corrected differences and
   * the elevations.
   */
  method LevellingRun(dist: seq<real>, diff: seq<real>, beg: real, closure: real, precision: int,
                      tolFn: real -> real, cut: Cut, threshold: real) returns (r: Result<LevellingResult>)
    requires |dist| == |diff|
    ensures r == Levelling(dist, diff, beg, closure, precision, tolFn, cut, threshold)
  {
    var target := cut(-closure, precision);
    var mean := MeanCorrection(dist, target, precision, cut);
    var corrections := new int[0];
    if mean.Some? {
      corrections := ShareLoop(dist, Units(mean.value, precision), precision, cut);
    } else if |dist| > 0 {
      return Err(NonFinite);
    }
    assert corrections[..] == InitialCorrections(dist, mean, precision, cut);
    var outcome := AdjustSumToTarget(corrections, Units(Sum(corrections[..]), precision), Units(target, precision),
                                     precision, cut, threshold);
    if outcome.Fail? {
      return Err(outcome.error);
    }
    LevellingSuccess(dist, diff, beg, closure, precision, tolFn, cut, threshold, corrections[..]);
    var corrected := CorrectedDiffLoop(diff, corrections[..], precision);
    var elev := ElevationLoop(beg, corrected);
    r := Ok(LevellingResult(
      closure, CalcTolerance(dist, tolFn), SumReal(dist), SumReal(diff), Units(target, precision),
      if mean.Some? then Some(Units(mean.value, precision)) else None,
      Scaled(corrections[..], precision), corrected, elev));
  }

  /** closedElevAdjust as the source runs it: the size check, the closure, then the shared steps. */
  method ClosedElevAdjust(dist: seq<real>, diff: seq<real>, beg: real, precision: int,
                          tolFn: real -> real, cut: Cut, threshold: real) returns (r: Result<LevellingResult>)
    ensures r == ClosedLevelling(dist, diff, beg, precision, tolFn, cut, threshold)
  {
    if |dist| != |diff| {
      return Err(InvalidArgument);
    }
    r := LevellingRun(dist, diff, beg, ClosedClosure(diff), precision, tolFn, cut, threshold);
  }

  /** attachedElevAdjust as the source runs it: the size check, the closure less the known rise, then the shared steps. */
  method AttachedElevAdjust(dist: seq<real>, diff: seq<real>, beg: real, end: real, precision: int,
                            tolFn: real -> real, cut: Cut, threshold: real) returns (r: Result<LevellingResult>)
    ensures r == AttachedLevelling(dist, diff, beg, end, precision, tolFn, cut, threshold)
  {
    if |dist| != |diff| {
      return Err(InvalidArgument);
    }
    r := LevellingRun(dist, diff, beg, AttachedClosure(diff, beg, end), precision, tolFn, cut, threshold);
  }
}

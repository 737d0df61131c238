/**
 * Helpers shared by the levelling and traverse adjustments: the greedy redistribution of
 * a rounding remainder one unit at a time, and the tolerance of a closure.
 *
 * Corrections are held as whole counts of the correction unit 10^-precision. `cut`, the
 * library's rounding to `precision` decimals, is a parameter that maps a real value to
 * such a count. The operations apply it wherever the library does; the properties about
 * sums hold for a cut that keeps every whole number of units (`KeepsWholeUnits`), as
 * rounding to `precision` decimals does, and say so in their preconditions.
 */
module ClosureUtils {
  import opened Wrappers
  import opened Reals
  import opened MathUtils

  /** `cut(x, precision)`, returning the rounded value as a count of correction units. */
  type Cut = (real, int) -> int

  /**
   * The value of k correction units: k * 0.1^precision for a positive precision and k
   * itself otherwise. Written as repeated division by ten so that it stays linear in k.
   */
  function Units(k: int, precision: int): real
    decreases if precision > 0 then precision else 0
  {
    if precision > 0 then Units(k, precision - 1) / 10.0 else k as real
  }

  /** Units are additive. */
  lemma {:induction false} UnitsAdd(a: int, b: int, precision: int)
    ensures Units(a + b, precision) == Units(a, precision) + Units(b, precision)
    decreases if precision > 0 then precision else 0
  {
    if precision > 0 {
      UnitsAdd(a, b, precision - 1);
    }
  }

  /** A count and its value have the same sign. */
  lemma {:induction false} UnitsSign(k: int, precision: int)
    ensures k > 0 ==> Units(k, precision) > 0.0
    ensures k == 0 ==> Units(k, precision) == 0.0
    ensures k < 0 ==> Units(k, precision) < 0.0
    decreases if precision > 0 then precision else 0
  {
    if precision > 0 {
      UnitsSign(k, precision - 1);
    }
  }

  /** Units preserve negation and differences. */
  lemma UnitsSub(a: int, b: int, precision: int)
    ensures Units(-a, precision) == -Units(a, precision)
    ensures Units(a - b, precision) == Units(a, precision) - Units(b, precision)
  {
    UnitsAdd(a, -a, precision);
    UnitsSign(0, precision);
    UnitsAdd(a - b, b, precision);
  }

  /** Units preserve order. */
  lemma UnitsMono(a: int, b: int, precision: int)
    requires a <= b
    ensures Units(a, precision) <= Units(b, precision)
  {
    UnitsAdd(b - a, a, precision);
    UnitsSign(b - a, precision);
  }

  /** The step unit of adjustSumToTarget: 0.1^precision for a positive precision and 1 otherwise. */
  function Unit(precision: int): (u: real)
    ensures u > 0.0
  {
    UnitsSign(1, precision);
    Units(1, precision)
  }

  /** The sum of a sequence of counts. */
  function Sum(s: seq<int>): int
  {
    if |s| == 0 then 0 else Sum(s[..|s| - 1]) + s[|s| - 1]
  }

  /** The sum of a sequence of reals, folded from the right end. */
  function SumReal(s: seq<real>): real
  {
    if |s| == 0 then 0.0 else SumReal(s[..|s| - 1]) + s[|s| - 1]
  }

  /** std::accumulate: a left fold from `init`. */
  function Accumulate(s: seq<real>, init: real): real
  {
    if |s| == 0 then init else Accumulate(s[1..], init + s[0])
  }

  /** Accumulating from `init` adds `init` to the sum of the sequence. */
  lemma {:induction false} AccumulateIsSum(s: seq<real>, init: real)
    ensures Accumulate(s, init) == init + SumReal(s)
  {
    if |s| > 0 {
      AccumulateIsSum(s[1..], init + s[0]);
      SumRealCons(s);
    }
  }

  /** The sum splits off the first element as well as the last. */
  lemma {:induction false} SumRealCons(s: seq<real>)
    requires |s| > 0
    ensures SumReal(s) == s[0] + SumReal(s[1..])
  {
    if |s| > 1 {
      SumRealCons(s[..|s| - 1]);
      assert s[..|s| - 1][1..] == s[1..][..|s[1..]| - 1];
    } else {
      assert s[1..] == [];
    }
  }

  /**
   * calcTolerence: the tolerance function applied to the accumulated vector, which is
   * the plain sum of the vector.
   */
  function CalcTolerance(s: seq<real>, fn: real -> real): (t: real)
    ensures t == fn(SumReal(s))
  {
    AccumulateIsSum(s, 0.0);
    fn(Accumulate(s, 0.0))
  }

  // ---------------------------------------------------------------------------
  // adjustSumToTarget

  /** std::max_element: the index of the first greatest element. */
  function FirstMaxIndex(s: seq<int>): (i: nat)
    requires |s| > 0
    ensures i < |s|
  {
    if |s| == 1 then 0
    else
      var k := FirstMaxIndex(s[..|s| - 1]);
      if s[|s| - 1] > s[k] then |s| - 1 else k
  }

  /** std::min_element: the index of the first least element. */
  function FirstMinIndex(s: seq<int>): (i: nat)
    requires |s| > 0
    ensures i < |s|
  {
    if |s| == 1 then 0
    else
      var k := FirstMinIndex(s[..|s| - 1]);
      if s[|s| - 1] < s[k] then |s| - 1 else k
  }

  /** `FirstMaxIndex` finds a greatest element, and no earlier element is as great. */
  lemma {:induction false} FirstMaxIndexIsFirstMax(s: seq<int>)
    requires |s| > 0
    ensures forall j :: 0 <= j < |s| ==> s[j] <= s[FirstMaxIndex(s)]
    ensures forall j :: 0 <= j < FirstMaxIndex(s) ==> s[j] < s[FirstMaxIndex(s)]
  {
    if |s| > 1 {
      FirstMaxIndexIsFirstMax(s[..|s| - 1]);
    }
  }

  /** `FirstMinIndex` finds a least element, and no earlier element is as small. */
  lemma {:induction false} FirstMinIndexIsFirstMin(s: seq<int>)
    requires |s| > 0
    ensures forall j :: 0 <= j < |s| ==> s[FirstMinIndex(s)] <= s[j]
    ensures forall j :: 0 <= j < FirstMinIndex(s) ==> s[FirstMinIndex(s)] < s[j]
  {
    if |s| > 1 {
      FirstMinIndexIsFirstMin(s[..|s| - 1]);
    }
  }

  /** One step of the redistribution: lower the first maximum, or raise the first minimum, by one unit. */
  function Step(s: seq<int>, up: bool): seq<int>
    requires |s| > 0
  {
    if up then s[FirstMinIndex(s) := s[FirstMinIndex(s)] + 1]
    else s[FirstMaxIndex(s) := s[FirstMaxIndex(s)] - 1]
  }

  /** `k` steps in the same direction. */
  function Steps(s: seq<int>, up: bool, k: nat): (r: seq<int>)
    requires |s| > 0 || k == 0
    ensures |r| == |s|
  {
    if k == 0 then s else Step(Steps(s, up, k - 1), up)
  }

  /** The vector after adjustSumToTarget has removed a difference of `dif` units. */
  function Redistributed(s: seq<int>, dif: int): seq<int>
    requires |s| > 0 || dif == 0
  {
    if dif < 0 then Steps(s, true, -dif) else Steps(s, false, dif)
  }

  /** Changing one element changes the sum by the difference. */
  lemma {:induction false} SumUpdate(s: seq<int>, i: nat, v: int)
    requires i < |s|
    ensures Sum(s[i := v]) == Sum(s) - s[i] + v
  {
    var t := s[i := v];
    if i == |s| - 1 {
      assert t[..|t| - 1] == s[..|s| - 1];
    } else {
      SumUpdate(s[..|s| - 1], i, v);
      assert t[..|t| - 1] == s[..|s| - 1][i := v];
    }
  }

  /** Each step changes exactly one element, by exactly one unit, at the first extreme. */
  lemma StepChangesOne(s: seq<int>, up: bool)
    requires |s| > 0
    ensures var i := if up then FirstMinIndex(s) else FirstMaxIndex(s);
            |Step(s, up)| == |s| &&
            Step(s, up)[i] == s[i] + (if up then 1 else -1) &&
            forall j :: 0 <= j < |s| && j != i ==> Step(s, up)[j] == s[j]
  {
  }

  /** One step moves the sum by one unit. */
  lemma {:induction false} StepSum(s: seq<int>, up: bool)
    requires |s| > 0
    ensures up ==> Sum(Step(s, up)) == Sum(s) + 1
    ensures !up ==> Sum(Step(s, up)) == Sum(s) - 1
  {
    if up {
      var i := FirstMinIndex(s);
      SumUpdate(s, i, s[i] + 1);
      assert Step(s, up) == s[i := s[i] + 1];
    } else {
      var i := FirstMaxIndex(s);
      SumUpdate(s, i, s[i] - 1);
      assert Step(s, up) == s[i := s[i] - 1];
    }
  }

  /** Every step moves the sum by one unit. */
  lemma {:induction false} StepsSum(s: seq<int>, up: bool, k: nat)
    requires |s| > 0 || k == 0
    ensures up ==> Sum(Steps(s, up, k)) == Sum(s) + k
    ensures !up ==> Sum(Steps(s, up, k)) == Sum(s) - k
  {
    if k > 0 {
      StepsSum(s, up, k - 1);
      StepSum(Steps(s, up, k - 1), up);
    }
  }

  /** Removing a difference of `dif` units leaves the sum exactly `dif` lower. */
  lemma {:induction false} RedistributedSum(s: seq<int>, dif: int)
    requires |s| > 0 || dif == 0
    ensures Sum(Redistributed(s, dif)) == Sum(s) - dif
  {
    if dif < 0 {
      StepsSum(s, true, -dif);
    } else {
      StepsSum(s, false, dif);
    }
  }

  /** Lowering steps never raise an element and raising steps never lower one. */
  lemma {:induction false} StepsMonotone(s: seq<int>, up: bool, k: nat)
    requires |s| > 0 || k == 0
    ensures forall j :: 0 <= j < |s| ==>
              if up then Steps(s, up, k)[j] >= s[j] else Steps(s, up, k)[j] <= s[j]
  {
    if k > 0 {
      StepsMonotone(s, up, k - 1);
    }
  }

  /**
   * With an approximate-equality threshold no larger than the unit, the early return
   * only happens when there is nothing to redistribute.
   */
  lemma EarlyReturnOnlyWhenBalanced(dif: int, precision: int, threshold: real)
    requires threshold <= Unit(precision)
    ensures EqApprox(Units(dif, precision), 0.0, threshold) ==> dif == 0
  {
    if dif >= 1 {
      UnitsMono(1, dif, precision);
    } else if dif <= -1 {
      UnitsMono(dif, -1, precision);
      UnitsSub(1, 0, precision);
    }
  }

  /** The unit after `unit = cut(unit, precision)`, as a count: one unit for a cut that keeps whole units. */
  function UnitCount(cut: Cut, precision: int): int
  {
    Recut(cut, 1, precision)
  }

  /**
   * `int count = dif / unit` once the unit carries the sign of `dif`: the number of whole
   * units in |dif|. A unit that cut has made negative gives a negative count and no step;
   * a unit cut to zero would divide by zero, which C++ leaves undefined, and is taken to
   * give no step either.
   */
  function StepCount(dif: int, unit: int): (n: nat)
    ensures unit == 1 ==> n == if dif < 0 then -dif else dif
    ensures unit <= 0 ==> n == 0
  {
    var size: nat := if dif < 0 then -dif else dif;
    if unit > 0 then Quotient(size, unit) else 0
  }

  /** Truncating division of a natural number by a positive one. */
  function Quotient(a: nat, b: int): (q: nat)
    requires b > 0
    ensures b == 1 ==> q == a
  {
    if a < b then 0 else 1 + Quotient(a - b, b)
  }

  /**
   * One pass of the library's loop: the first least element plus the unit, or the first
   * greatest less the unit, each cut again to `precision`.
   */
  function CutStep(s: seq<int>, up: bool, cut: Cut, precision: int): seq<int>
    requires |s| > 0
  {
    var unit := UnitCount(cut, precision);
    if up then s[FirstMinIndex(s) := Recut(cut, s[FirstMinIndex(s)] + unit, precision)]
    else s[FirstMaxIndex(s) := Recut(cut, s[FirstMaxIndex(s)] - unit, precision)]
  }

  /** `k` passes of the loop in the same direction. */
  function CutSteps(s: seq<int>, up: bool, cut: Cut, precision: int, k: nat): (r: seq<int>)
    requires |s| > 0 || k == 0
    ensures |r| == |s|
  {
    if k == 0 then s else CutStep(CutSteps(s, up, cut, precision, k - 1), up, cut, precision)
  }

  /** The vector after the loops of adjustSumToTarget for a difference of `dif` units. */
  function Redistribution(s: seq<int>, dif: int, cut: Cut, precision: int): seq<int>
    requires |s| > 0 || StepCount(dif, UnitCount(cut, precision)) == 0
  {
    CutSteps(s, dif < 0, cut, precision, StepCount(dif, UnitCount(cut, precision)))
  }

  /** For a cut that keeps whole units, every pass of the loop is an exact step of one unit. */
  lemma {:induction false} CutStepsExact(s: seq<int>, up: bool, cut: Cut, precision: int, k: nat)
    requires KeepsWholeUnits(cut, precision) && (|s| > 0 || k == 0)
    ensures CutSteps(s, up, cut, precision, k) == Steps(s, up, k)
  {
    if k > 0 {
      CutStepsExact(s, up, cut, precision, k - 1);
      var t := Steps(s, up, k - 1);
      assert UnitCount(cut, precision) == 1;
      var i := if up then FirstMinIndex(t) else FirstMaxIndex(t);
      assert Recut(cut, t[i] + 1, precision) == t[i] + 1;
      assert Recut(cut, t[i] - 1, precision) == t[i] - 1;
    }
  }

  /** For a cut that keeps whole units, the library's loops remove exactly |dif| units one at a time. */
  lemma RedistributionExact(s: seq<int>, dif: int, cut: Cut, precision: int)
    requires KeepsWholeUnits(cut, precision) && (|s| > 0 || dif == 0)
    ensures StepCount(dif, UnitCount(cut, precision)) == if dif < 0 then -dif else dif
    ensures Redistribution(s, dif, cut, precision) == Redistributed(s, dif)
  {
    assert UnitCount(cut, precision) == 1;
    CutStepsExact(s, dif < 0, cut, precision, if dif < 0 then -dif else dif);
  }

  /**
   * What adjustSumToTarget makes of a vector of correction counts once it has computed
   * `dif`, the count cut(sum - target): nothing when the difference is approximately zero
   * (`threshold` is the default threshold of eqApprox) or holds no whole unit, otherwise
   * the passes of the loop. The checked element access of the first pass throws
   * out_of_range on an empty vector.
   */
  function SumToTarget(s: seq<int>, dif: int, precision: int, threshold: real, cut: Cut): (r: Result<seq<int>>)
    ensures r.Ok? ==> |r.value| == |s|
    ensures r.Err? <==> |s| == 0 && StepCount(dif, UnitCount(cut, precision)) > 0
                        && !EqApprox(Units(dif, precision), 0.0, threshold)
    ensures r.Err? ==> r.error == OutOfRange
  {
    if EqApprox(Units(dif, precision), 0.0, threshold) || StepCount(dif, UnitCount(cut, precision)) == 0 then Ok(s)
    else if |s| == 0 then Err(OutOfRange)
    else Ok(Redistribution(s, dif, cut, precision))
  }

  /** One pass of the loop of adjustSumToTarget, in place. */
  method CutPass(vec: array<int>, up: bool, unit: int, cut: Cut, precision: int)
    requires vec.Length > 0 && unit == UnitCount(cut, precision)
    modifies vec
    ensures vec[..] == CutStep(old(vec[..]), up, cut, precision)
  {
    ghost var s := vec[..];
    if up {
      var idx := FirstMinIndex(vec[..]);
      vec[idx] := Recut(cut, vec[idx] + unit, precision);
      assert vec[..] == s[idx := Recut(cut, s[idx] + unit, precision)];
    } else {
      var idx := FirstMaxIndex(vec[..]);
      vec[idx] := Recut(cut, vec[idx] - unit, precision);
      assert vec[..] == s[idx := Recut(cut, s[idx] - unit, precision)];
    }
  }

  /** adjustSumToTarget: rewrites the vector in place, one unit at a time. */
  method AdjustSumToTarget(vec: array<int>, sum: real, target: real, precision: int, cut: Cut, threshold: real)
    returns (r: Outcome)
    modifies vec
    ensures var expected := SumToTarget(old(vec[..]), cut(sum - target, precision), precision, threshold, cut);
            (expected.Ok? ==> r == Pass && vec[..] == expected.value) &&
            (expected.Err? ==> r == Fail(expected.error) && vec[..] == old(vec[..]))
  {
    var dif := cut(sum - target, precision);
    var unit := Recut(cut, 1, precision);
    var up := dif < 0;
    var count := StepCount(dif, unit);
    if EqApprox(Units(dif, precision), 0.0, threshold) {
      return Pass;
    }
    ghost var start := vec[..];
    ghost var done := 0;
    while count > 0
      invariant done + count == StepCount(dif, unit)
      invariant vec.Length > 0 || done == 0
      invariant vec[..] == CutSteps(start, up, cut, precision, done)
    {
      if vec.Length == 0 {
        assert SumToTarget(start, dif, precision, threshold, cut) == Err(OutOfRange);
        return Fail(OutOfRange);
      }
      CutPass(vec, up, unit, cut, precision);
      count := count - 1;
      done := done + 1;
    }
    assert vec[..] == Redistribution(start, dif, cut, precision);
    return Pass;
  }

  /** cut applied to the value of k units. */
  function Recut(cut: Cut, k: int, precision: int): int
  {
    cut(Units(k, precision), precision)
  }

  /** Whether cut keeps every whole number of units as it is, as rounding to `precision` decimals does. */
  ghost predicate KeepsWholeUnits(cut: Cut, precision: int)
  {
    forall k: int :: Recut(cut, k, precision) == k
  }

  /** Whether cut keeps x as it is: x is a whole number of correction units. */
  predicate CutIsExact(cut: Cut, x: real, precision: int)
  {
    Units(cut(x, precision), precision) == x
  }

  /** When cut keeps whole units, the difference of two counts is cut to itself. */
  lemma DifferenceOfCounts(cut: Cut, a: int, b: int, precision: int)
    requires KeepsWholeUnits(cut, precision)
    ensures cut(Units(a, precision) - Units(b, precision), precision) == a - b
  {
    UnitsSub(a, b, precision);
    assert Recut(cut, a - b, precision) == a - b;
  }

  /** When cut keeps whole units, zero is cut exactly. */
  lemma ZeroIsExact(cut: Cut, precision: int)
    requires KeepsWholeUnits(cut, precision)
    ensures CutIsExact(cut, 0.0, precision)
  {
    UnitsSign(0, precision);
    assert Recut(cut, 0, precision) == 0;
  }

  /** When cut keeps whole units, the difference of two exactly cut values is cut exactly. */
  lemma DifferenceIsExact(cut: Cut, x: real, y: real, d: real, precision: int)
    requires KeepsWholeUnits(cut, precision) && CutIsExact(cut, x, precision) && CutIsExact(cut, y, precision)
    requires d == x - y
    ensures CutIsExact(cut, d, precision)
  {
    var a, b := cut(x, precision), cut(y, precision);
    DifferenceOfCounts(cut, a, b, precision);
    UnitsSub(a, b, precision);
    assert cut(x - y, precision) == a - b;
  }

  /**
   * On a non-empty vector, with a threshold no larger than the unit and a cut that keeps
   * whole units, adjustSumToTarget
   * succeeds and lowers the sum by exactly `dif` units: with `dif` = sum - target the
   * vector ends up summing to the target.
   */
  lemma {:induction false} AdjustReachesTarget(s: seq<int>, dif: int, precision: int, threshold: real, cut: Cut)
    requires |s| > 0 && threshold <= Unit(precision) && KeepsWholeUnits(cut, precision)
    ensures SumToTarget(s, dif, precision, threshold, cut).Ok?
    ensures Sum(SumToTarget(s, dif, precision, threshold, cut).value) == Sum(s) - dif
  {
    RedistributionExact(s, dif, cut, precision);
    assert EqApprox(Units(dif, precision), 0.0, threshold) ==> dif == 0 by {
      EarlyReturnOnlyWhenBalanced(dif, precision, threshold);
    }
    assert Sum(Redistributed(s, dif)) == Sum(s) - dif by {
      RedistributedSum(s, dif);
    }
  }
}

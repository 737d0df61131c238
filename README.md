# libGA core, modelled in Dafny

libGA is a C++ toolkit for surveying, geodesy and photogrammetry. This project models its
adjustment core and proves properties of the model:

- the least-squares adjustment of a levelling network (`netAdjust` on an `Elev_Net`): column
  indices for the free bench marks, a multi-source breadth-first search from the control points
  that initialises elevations and fills the design, weight and misclosure matrices, the solve,
  and the write-back of corrections and residuals (`elev_net.dfy`, module `ElevNet`);
- the matrix primitives behind every adjustment: placeholder and identity weights, the normal
  equation, the Cholesky / LDLT / SVD inverse cascade, ordinary least squares, translation,
  rotation, scaling, rmse and the error matrix (`linalg.dfy`, `Linalg`);
- photogrammetry: the coordinate chain object → auxiliary → image space → image, the starting
  pose, the three linearisations of the collinearity equations, space resection, and space
  intersection in closed form and by iteration (`photogrammetry.dfy`, `collinearity.dfy`,
  `resection.dfy`, `intersection.dfy`);
- classic closure distribution: `adjustSumToTarget` (one unit at a time onto the first extreme
  element), `calcTolerence`, closed and attached levelling, closed and connecting traverses
  (`closure.dfy`, `elev_adjust.dfy`, `traverse.dfy`);
- the small utilities they rely on: angles (unit converters, DMS, arithmetic, comparisons, `norm`,
  `std`, `dms2rad`, the number handling of `fromString`), Gauss–Krüger zones and central
  meridians, the quadrant tables of the geodesic solver, the cubic-spline segment lookup, and the
  JSON text helpers (`angle.dfy`, `projector.dfy`, `geodesic.dfy`, `math.dfy`, `json.dfy`).
  `reals.dfy` holds exact stand-ins for `<cmath>` calls (`trunc`, `fmod`) and small arithmetic
  lemmas; `wrappers.dfy` holds `Option`, `Result`, `Outcome` and the error kinds.

Conventions of the model:

- `double` is `real`. A NaN or infinite result is `None`, or the error `NonFinite` where the
  source would carry it on into a loop or a matrix.
- An exception is an `Err` of its kind: `InvalidArgument`, `RangeError`, `OutOfRange`,
  `RuntimeError`, `MatrixShapeError`, `NotImplemented`.
- Eigen matrices are values of the datatype `Linalg.Matrix` (rows, columns and a sequence of rows)
  with shape predicates.
- Collaborators whose definitions are not part of this model are parameters, and the lemmas that
  need a fact about one state it as a hypothesis. These are `cut`, `sin`, `cos`, `sqrt`, the
  Eigen factorisations (LLT, LDLT, JacobiSVD, column-pivoting QR), the rotation-matrix builder,
  the coefficient and inverse solvers passed to resection and intersection, and the Gauss
  projection series.
- `cut` takes a value and a precision and returns a whole number of units of 10^-precision.
  Closure distribution therefore works on integers of units, where its sum arguments are exact.
- The imperative parts keep their form. The levelling network is a set of classes (`Net`,
  `Indices`, `Equations`, `Visitor`) whose methods update fields in place. The BFS runs on a
  colour array and an explicit queue. Every loop of the source is a `while` or `for` loop proved
  against a specification function.
- `preprocessJsonStr` rewrites `nan` to `null` because section 6 of RFC 8259 has no literal for
  NaN or infinity.

Two places where the code's own evidence (a guard, a flag) shows an intent that its statements
do not carry out; the model follows the statements and says where it corrects them:

- The network adjustment has a guard that throws `invalid_argument("self loop detected")` after
  the search and before the solve (src/lga/impl/OfficialWorkElevNet.hpp:303-306), so a run that
  starts and ends at the same mark is meant to be rejected. In the code, `non_tree_edge` raises
  its flag for every run whose target was already discovered, so any redundant network would
  raise it. But the search receives a copy of the visitor, and `netAdjust` tests its own flag,
  which nothing raises. So, as written, nothing is ever rejected there (`ElevNet.Survey`,
  `ElevNet.NetAdjustAsWritten`). The corrected model (`ElevNet.Precheck`, `ElevNet.NetAdjust`)
  rejects a self-loop run before anything is touched; see Findings.
- The iterative intersection keeps one flag per pass, `is_converged`
  (src/lga/impl/Photogrammetry.cpp:462-560): it is lowered by any point whose correction is not
  below the threshold, and the loop stops only after a pass in which every point converged. The
  code nevertheless sets `Success`, with that point's precision, as soon as a single point's
  correction is below the threshold (`Intersection.CorrectRow`); the model keeps that per-point
  marking as written.

## Model

| member | source | states |
|---|---|---|
| MathUtils.EqApproxStrict | src/lga/impl/Math.cpp:5-9 | eqApprox holds exactly when the two values are strictly closer than the threshold, symmetrically; it never holds with threshold 0 or with the threshold equal to the distance |
| MathUtils.InvokeSegment | src/lga/impl/Math.cpp:23-34 | the segment's cubic value when its magnitude is below the threshold, otherwise +threshold (even for a negative cubic); never above the threshold |
| MathUtils.SegmentFrom | src/lga/impl/Math.cpp:61-69 | the search result is a segment index, or 0 when no right knot lies beyond the point |
| MathUtils.Evaluate | src/lga/impl/Math.cpp:36-73 | the loop with its early break computes the spline value function |
| MathUtils.SegmentFromBrackets | src/lga/impl/Math.cpp:61-72 | for sorted knots the search from i finds the segment with x[idx] <= p_x < x[idx+1] |
| MathUtils.InteriorSegmentContainsPoint | src/lga/impl/Math.cpp:61-72 | for sorted knots and a point strictly inside them, the chosen segment brackets the point |
| MathUtils.SplineEnds | src/lga/impl/Math.cpp:38-54 | no coefficients give 0; left of the first knot, segment 0 with dx from x[0]; right of the last knot, segment size-2 with dx from the last knot; the value never exceeds the threshold |
| ClosureUtils.UnitsAdd | src/lga/impl/OfficialWorkUtils.cpp:18-19 | counts of correction units add as their values do |
| ClosureUtils.UnitsSign | src/lga/impl/OfficialWorkUtils.cpp:22-23 | a count of units and its value have the same sign, which is what signbit(dif) tests |
| ClosureUtils.UnitsSub | src/lga/impl/OfficialWorkUtils.cpp:22-23 | the value of units commutes with negation (the negated unit) and with differences |
| ClosureUtils.UnitsMono | src/lga/impl/OfficialWorkUtils.cpp:18-19 | the value of units is monotone in the count |
| ClosureUtils.Unit | src/lga/impl/OfficialWorkUtils.cpp:18-19 | the step unit is positive: 0.1^precision for a positive precision, 1 otherwise |
| ClosureUtils.AccumulateIsSum | src/lga/impl/OfficialWorkUtils.cpp:62-65 | std::accumulate from 0.0 is the sum of the vector |
| ClosureUtils.CalcTolerance | src/lga/impl/OfficialWorkUtils.cpp:57-66 | calcTolerence is p_fn applied to the sum of the vector |
| ClosureUtils.FirstMaxIndex | src/lga/impl/OfficialWorkUtils.cpp:47-48 | std::max_element on a non-empty vector gives an index inside it |
| ClosureUtils.FirstMinIndex | src/lga/impl/OfficialWorkUtils.cpp:37-38 | std::min_element on a non-empty vector gives an index inside it |
| ClosureUtils.FirstMaxIndexIsFirstMax | src/lga/impl/OfficialWorkUtils.cpp:47-48 | the index holds a greatest element and every earlier element is strictly smaller |
| ClosureUtils.FirstMinIndexIsFirstMin | src/lga/impl/OfficialWorkUtils.cpp:37-38 | the index holds a least element and every earlier element is strictly greater |
| ClosureUtils.Steps | src/lga/impl/OfficialWorkUtils.cpp:35-51 | the loop steps never change the length of the vector |
| ClosureUtils.SumUpdate | src/lga/impl/OfficialWorkUtils.cpp:39-40 | rewriting one element changes the sum by the difference |
| ClosureUtils.StepChangesOne | src/lga/impl/OfficialWorkUtils.cpp:37-40 | one step rewrites exactly the first minimum (raised by one unit) or the first maximum (lowered by one unit) and nothing else |
| ClosureUtils.StepSum | src/lga/impl/OfficialWorkUtils.cpp:39-40 | one step moves the sum by exactly one unit in the step's direction |
| ClosureUtils.StepsSum | src/lga/impl/OfficialWorkUtils.cpp:35-51 | k steps move the sum by exactly k units |
| ClosureUtils.RedistributedSum | src/lga/impl/OfficialWorkUtils.cpp:20-52 | redistributing a difference of dif units leaves the sum exactly dif units lower |
| ClosureUtils.StepsMonotone | src/lga/impl/OfficialWorkUtils.cpp:33-52 | lowering steps never raise an element and raising steps never lower one |
| ClosureUtils.EarlyReturnOnlyWhenBalanced | src/lga/impl/OfficialWorkUtils.cpp:28-31 | with a threshold at most one unit, the early return happens only when the cut difference is zero |
| ClosureUtils.StepCount | src/lga/impl/OfficialWorkUtils.cpp:20-25 | the loop count dif / unit is \|dif\| for a one-unit step and zero for a unit cut to zero or below |
| ClosureUtils.CutSteps | src/lga/impl/OfficialWorkUtils.cpp:33-52 | the passes of the loop, each re-cutting the rewritten element, keep the length |
| ClosureUtils.CutStepsExact | src/lga/impl/OfficialWorkUtils.cpp:33-52 | for a cut that keeps whole units, every re-cut pass is an exact step of one unit |
| ClosureUtils.RedistributionExact | src/lga/impl/OfficialWorkUtils.cpp:18-52 | for a cut that keeps whole units, the unit stays one unit, the loop runs \|dif\| times and its passes are the exact steps |
| ClosureUtils.SumToTarget | src/lga/impl/OfficialWorkUtils.cpp:12-55 | the length is kept; the only failure is std::out_of_range from at() on an empty vector when the loop has at least one pass and the difference is not approximately zero |
| ClosureUtils.AdjustSumToTarget | src/lga/impl/OfficialWorkUtils.cpp:12-55 | the in-place loop, which cuts the unit and re-cuts every rewritten element, leaves the array equal to the redistribution of the cut difference, or unchanged with the out-of-range error |
| ClosureUtils.DifferenceOfCounts | src/lga/impl/OfficialWorkUtils.cpp:20 | when cut keeps whole units, cut(sum - target) is the difference of the unit counts |
| ClosureUtils.ZeroIsExact | src/lga/impl/OfficialWorkUtils.cpp:20 | when cut keeps whole units, zero is cut exactly |
| ClosureUtils.DifferenceIsExact | src/lga/impl/OfficialWorkUtils.cpp:20 | when cut keeps whole units, the difference of two exactly cut values is cut exactly |
| ClosureUtils.AdjustReachesTarget | src/lga/impl/OfficialWorkUtils.cpp:20-52 | on a non-empty vector, for a cut that keeps whole units, the adjustment succeeds and the final sum equals the target (sum minus dif) |
| Angles.ConvertersRoundTrip | src/lga/impl/Angle.cpp:12-26 | each unit converter is undone by its partner; 60 minutes and 3600 seconds convert like one degree; 180 degrees is pi |
| Angles.FactoriesRoundTrip | src/lga/impl/Angle.cpp:31-34 | every factory (fromSeconds, fromMinutes, fromDegrees, fromRadian) is undone by the matching accessor (lines 44-47) |
| Angles.FromDms | src/lga/impl/Angle.cpp:35-43 | the magnitude is deg2rad abs d + min2rad abs m + sec2rad abs s, and the result is non-positive exactly when the sign flag asks for it |
| Angles.SplitSeconds | src/lga/impl/Angle.cpp:48-56 | a non-negative count of seconds splits into whole degrees, minutes in [0, 60) and seconds in [0, 60) that add back to it |
| Angles.FmodTruncOdd | src/lga/impl/Angle.cpp:50-56 | fmod and the truncating int cast used by seconds, minutes and degrees are odd in the dividend |
| Angles.UnitsInSeconds | src/lga/impl/Angle.cpp:12-26 | degrees, minutes and seconds in radians equal one count of seconds in radians |
| Angles.PartsFromSeconds | src/lga/impl/Angle.cpp:48-56 | degrees, minutes and seconds are the truncated and fmod parts of the magnitude of the count of seconds |
| Angles.DmsRoundTrip | src/lga/impl/Angle.cpp:35-60 | toDMS followed by fromDMS with the angle's sign rebuilds the angle exactly |
| Angles.AlgebraLaws | src/lga/impl/Angle.cpp:69-96 | the operators act on radians: sum and difference undo each other, unary minus is the inverse, addition commutes, scaling distributes |
| Angles.DivScalar | src/lga/impl/Angle.cpp:97-100 | dividing by a non-zero scalar is undone by scaling; a zero scalar gives no finite angle |
| Angles.ScalarDiv | src/lga/impl/Angle.cpp:101-104 | the scalar-on-the-left division also divides the angle by the scalar |
| Angles.Ratio | src/lga/impl/Angle.cpp:85-88 | the ratio of two angles scales the divisor back to the dividend; no finite ratio for a zero divisor |
| Angles.Mod | src/lga/impl/Angle.cpp:81-84 | the remainder differs from the dividend by whole divisors and lies in [0, divisor) for non-negative operands; none for a zero divisor |
| Angles.ComparisonLaws | src/lga/impl/Angle.cpp:106-129 | eqApprox is withinAbs: symmetric and using the threshold's magnitude; ltAbs and gtAbs mirror each other, compare magnitudes and ignore the threshold; lt and gt mirror each other |
| Angles.Norm | src/lga/impl/Angle.cpp:131-136 | the result lies in [0, 2 pi), differs from the magnitude by whole turns, and equals the magnitude when that is already below 2 pi |
| Angles.NormSym | src/lga/impl/Angle.cpp:137-141 | normSym always fails with Not_Implement_Error |
| Angles.StdValue | src/lga/impl/Angle.cpp:146-161 | the closed form lies in [0, 2 pi], differs from the input by whole turns and keeps an input already in range |
| Angles.StdAbove | src/lga/impl/Angle.cpp:150-153 | the first loop, on an input above 2 pi, stops at a positive value in range |
| Angles.StdBelow | src/lga/impl/Angle.cpp:155-158 | the second loop, on a negative input, stops at a value below 2 pi in range |
| Angles.StdUnique | src/lga/impl/Angle.cpp:146-161 | the properties of std's result determine it uniquely |
| Angles.Std | src/lga/impl/Angle.cpp:146-161 | the two while-loops compute the closed form |
| Angles.StdProperties | src/lga/impl/Angle.cpp:131-161 | std is idempotent and agrees with norm on non-negative angles that are not whole turns |
| Angles.DmsToRad | src/lga/impl/Angle.hpp:15-39 | more than 3 parts give range_error; otherwise the signed sum of the converted magnitudes, 0 for no parts |
| Angles.DmsValueAgreesWithFromDms | src/lga/impl/Angle.cpp:234-238 | the three-part overload equals fromDMS signed by the first part; one part behaves like deg2rad |
| Angles.DmsMagnitudeIgnoresSigns | src/lga/impl/Angle.hpp:31-36 | every part is used by absolute value, so the signs of the parts do not change the magnitude |
| Angles.DigitsValueAppend | src/lga/impl/Angle.cpp:195-199 | the value of a concatenated digit string is the first value shifted by the second's length plus the second value |
| Angles.DigitsValueBelow | src/lga/impl/Angle.cpp:195-196 | a digit string of n digits is worth less than 10^n |
| Angles.ParseNumber | src/lga/impl/Angle.cpp:195-196 | std::stoi on a captured digit group gives its value when it fits an int, out_of_range when it is a digit string past INT_MAX, and invalid_argument otherwise |
| Angles.ShortGroupParses | src/lga/impl/Angle.cpp:195-196 | a digit group of at most nine digits always reads as its value |
| Angles.TenNinesOutOfRange | src/lga/impl/Angle.cpp:195-196 | "9999999999" makes std::stoi throw out_of_range |
| Angles.SecondsOf | src/lga/impl/Angle.cpp:197-199 | a digit-string seconds group is read, divided by 10^(size-2) past two digits; any other text is invalid_argument |
| Angles.SecondsOfFraction | src/lga/impl/Angle.cpp:197-199 | seconds text of two digits followed by more digits reads as ss plus the fraction 0.f...f |
| Angles.FromMatch | src/lga/impl/Angle.cpp:182-201 | no match gives invalid_argument, fewer than 4 groups runtime_error, a missing seconds group an error (invalid_argument once degrees and minutes read); otherwise success exactly when degrees and minutes parse as ints and seconds as a digit string, with the sign group choosing the sign |
| Angles.FromMatchShortGroups | src/lga/impl/Angle.cpp:182-201 | digit groups with at most nine degree and minute digits always give an angle |
| Angles.FromMatchValue | src/lga/impl/Angle.cpp:182-201 | when the groups parse, the angle is fromDMS of the degree and minute numbers and the seconds text (whole seconds plus their decimal fraction), signed by the sign group |
| Angles.FromMatchExample | src/lga/impl/Angle.cpp:192-201 | the groups "-", "1", "23", "456" read as minus 1 degree 23 minutes 45.6 seconds |
| JsonUtils.JoinedAgrees | src/lga/impl/BoostUtils.hpp:22-30 | the loop's join (separator after every item but the last) equals the reference join (first item, then ", " before each later one) |
| JsonUtils.JsonArrayShape | src/lga/impl/BoostUtils.hpp:20-33 | the text starts with '[' and ends with ']'; no items give exactly "[]"; n items take their lengths plus 2 brackets plus n - 1 separators |
| JsonUtils.JoinedLength | src/lga/impl/BoostUtils.hpp:22-30 | n items joined take their total length plus n - 1 separators of two characters |
| JsonUtils.ConvertedItems | src/lga/impl/BoostUtils.hpp:22-25 | the converter overload writes p_conv(iter) for each iterator of the range, in order |
| JsonUtils.ShownItems | src/lga/impl/BoostUtils.hpp:42-44 | the plain overload writes *iter for each position of the range, in order |
| JsonUtils.WrittenNext | src/lga/impl/BoostUtils.hpp:25-30 | one loop pass appends the item and, unless it is the last, one separator |
| JsonUtils.FormatWith | src/lga/impl/BoostUtils.hpp:12-34 | the converter overload's loop produces the bracketed join of the converted items |
| JsonUtils.Format | src/lga/impl/BoostUtils.hpp:36-53 | the begin/end overload's loop produces the bracketed join of the written elements |
| JsonUtils.FormatRange | src/lga/impl/BoostUtils.hpp:56-62 | the range overload equals the begin/end overload over the whole range |
| JsonUtils.FormatRangeWith | src/lga/impl/BoostUtils.hpp:64-74 | the range-with-converter overload equals the converter overload over the whole range |
| JsonUtils.DereferencingAgrees | src/lga/impl/BoostUtils.hpp:12-53 | with a converter that dereferences the iterator, the two overloads produce the same text |
| JsonUtils.Enforce2Double | src/lga/impl/BoostUtils.cpp:11-35 | a double, int64 or uint64 converts to its value in that order of preference; any other value gives NaN |
| JsonUtils.Enforce2DoubleKindFree | src/lga/impl/BoostUtils.cpp:11-35 | the same natural number converts to the same real whichever number kind holds it |
| JsonUtils.NumbersOf | src/lga/impl/BoostUtils.cpp:41-47 | the converted array keeps its length and each element is its enforce2double value |
| JsonUtils.Enforce2Angle | src/lga/impl/BoostUtils.cpp:37-50 | more than 3 elements give range_error; a non-number element gives a non-finite angle; otherwise dms2rad of the converted elements |
| JsonUtils.ReplaceAllAbsent | src/lga/impl/BoostUtils.cpp:56-66 | replace_all leaves a string without the pattern unchanged |
| JsonUtils.ReplaceAllKeepsOut | src/lga/impl/BoostUtils.cpp:56-66 | a character in neither the string nor the replacement is not in the result |
| JsonUtils.ReplaceAllSameLength | src/lga/impl/BoostUtils.cpp:65 | replacing "nan" by the equally long "NaN" keeps the length |
| JsonUtils.ReplaceAllRemoves | src/lga/impl/BoostUtils.cpp:56 | replacing "+" by nothing removes exactly the '+' characters and keeps every other character |
| JsonUtils.PreprocessJsonStr | src/lga/impl/BoostUtils.cpp:52-67 | no '+' remains; without allow_infinity_and_nan "nan" then "NaN" become "null" (RFC 8259 section 6 has no NaN literal); with it "nan" becomes "NaN" and the length is kept; a string without '+', "nan" or "NaN" is unchanged |
| Projector.Zone6Band | src/lga/impl/GeodesyProjector.cpp:18-21 | for a non-negative longitude, zone6 is z exactly when the longitude lies in z's 6-degree band [6(z-1), 6z) |
| Projector.Zone3Band | src/lga/impl/GeodesyProjector.cpp:7-17 | for a non-negative longitude, zone3 (truncated quotient, plus one past 1.5 degrees) is z exactly when the longitude lies in (3z - 1.5, 3z + 1.5] |
| Projector.Zone | src/lga/impl/GeodesyProjector.cpp:34-50 | zone succeeds exactly for an interval of 3 or 6 and otherwise throws invalid_argument |
| Projector.ZoneIsBand | src/lga/impl/GeodesyProjector.cpp:34-50 | for a non-negative longitude and a known interval, the zone found is exactly the one whose band holds the longitude |
| Projector.CenterMeridianOf | src/lga/impl/GeodesyProjector.cpp:59-76 | centerMeridian(zone, interval) succeeds exactly for an interval of 3 or 6 and otherwise throws invalid_argument |
| Projector.CenterMeridianAt | src/lga/impl/GeodesyProjector.cpp:52-57 | centerMeridian(longitude, interval) succeeds exactly for a known interval and otherwise throws invalid_argument |
| Projector.CenterMeridianNear | src/lga/impl/GeodesyProjector.cpp:7-31 | for lon >= 0 the 6-degree central meridian lies in (lon - 3, lon + 3] and the 3-degree one within 1.5 degrees of lon |
| Projector.ZoneYDecodes | src/lga/impl/GeodesyProjector.cpp:78-83 | for a y within 500 km of the central meridian, zoneY's millions give back the zone and the rest less 500000 gives back y |
| Projector.Forward | src/lga/impl/GeodesyProjector.cpp:85-147 | forward needs an interval of 3 or 6; it keeps a given zone, and computes the longitude's own zone only for p_zone == -1 |
| Projector.Inverse | src/lga/impl/GeodesyProjector.cpp:149-195 | inverse needs the coordinate's interval to be 3 or 6, or throws invalid_argument |
| Projector.ForwardInverse | src/lga/impl/GeodesyProjector.cpp:85-195 | with series that undo each other, inverse recovers the geodetic point from any forward projection of it, in any zone |
| Projector.ModifyZoneAsWritten | src/lga/impl/GeodesyProjector.cpp:217-230 | as written, modifyZone succeeds exactly when the source coordinate inverts and the target zone number is itself an interval (3 or 6), and the result then has that interval |
| Projector.ModifyZoneAsWrittenRejects | src/lga/impl/GeodesyProjector.cpp:217-230 | as written, moving a 6-degree coordinate to zone 19 throws (19 is taken as the interval), and a target of 3 switches the interval to 3 |
| Projector.ModifyZone | src/lga/impl/GeodesyProjector.cpp:217-230 | corrected re-zoning keeps the interval and lands in the target zone; it fails only for an unknown interval |
| Projector.ModifyZoneKeepsPoint | src/lga/impl/GeodesyProjector.cpp:217-230 | with series that undo each other, the re-zoned coordinate denotes the same geodetic point |
| Geodesic.AdjustLambda | src/lga/impl/GeodesySolver.cpp:100-124 | adjustLambda gives NaN exactly when sin A1 or tan lambda is zero |
| Geodesic.AdjustLambdaQuadrant | src/lga/impl/GeodesySolver.cpp:100-124 | the corrected lambda is in [-pi, pi], east of the first point exactly when sin A1 > 0, in the quadrant of tan lambda's sign, and keeps the tangent of lambda |
| Geodesic.AdjustA2 | src/lga/impl/GeodesySolver.cpp:126-150 | adjustA2 gives NaN exactly when sin A1 or tan A2 is zero |
| Geodesic.AdjustA2Quadrant | src/lga/impl/GeodesySolver.cpp:126-150 | the corrected A2 lies in the half plane and quadrant its sign table assigns and keeps the tangent of A2 |
| Geodesic.AdjustA1 | src/lga/impl/GeodesySolver.cpp:152-176 | adjustA1 gives NaN exactly when p or q is zero |
| Geodesic.AdjustA1Quadrant | src/lga/impl/GeodesySolver.cpp:152-176 | for abs A1 <= pi/2 and non-zero p, q the azimuth is in [0, 2 pi], in the quadrant of the signs of p and q, and keeps the tangent of A1 |
| Geodesic.AdjustSigma | src/lga/impl/GeodesySolver.cpp:178-194 | adjustSigma gives NaN exactly when cos sigma is zero |
| Geodesic.AdjustSigmaRange | src/lga/impl/GeodesySolver.cpp:178-194 | for abs sigma <= pi/2 the distance is in [0, pi], in [0, pi/2] when cos sigma > 0 and in [pi/2, pi] when it is negative |
| Geodesic.AmRad | src/lga/impl/GeodesySolver.cpp:238-264 | the five cases of calcAmRad cover every pair of reals, so the NaN branch is unreachable |
| Geodesic.AmRadQuadrant | src/lga/impl/GeodesySolver.cpp:238-264 | for T in [0, pi/2] the mean azimuth is in [0, 2 pi] and in the quadrant given by the signs of the differences |
| Geodesic.GaussLemmaSymmetry | src/lga/impl/GeodesySolver.cpp:42-60 | u and deltaAs are odd in dLs and even in dBs; v is odd in dBs and even in dLs |
| Geodesic.BesselFormulaCoeff | src/lga/impl/GeodesySolver.cpp:64-98 | beta_prime is finite exactly when cos^2 A0 is non-zero |
| Geodesic.BetaPrimeCancels | src/lga/impl/GeodesySolver.cpp:93-95 | beta_prime = 2 beta / cos^2 A0 cancels to (e^4 + e^6)/16 - e^6 cos^2 A0 / 32 |
| Geodesic.BesselOnSphere | src/lga/impl/GeodesySolver.cpp:82-89 | when k^2 = e'^2 cos^2 A0 is zero, A = b and B = C = 0 |
| Linalg.Zero | src/lga/impl/OfficialWorkElevNet.hpp:296-298 | Matrix::Zero has the requested shape and only zero entries |
| Linalg.Assign | src/lga/impl/OfficialWorkElevNet.hpp:212-229 | writing one entry keeps the shape |
| Linalg.AssignEntries | src/lga/impl/OfficialWorkElevNet.hpp:212-229 | after m(i, j) = x, entry (i, j) is x and every other entry is unchanged |
| Linalg.AssignTwice | src/lga/impl/OfficialWorkElevNet.hpp:212-229 | writing one entry twice keeps the second value |
| Linalg.IdentityLike | src/lga/impl/Linalg.cpp:43-46 | identityLike has the given shape, ones on the main diagonal and zeros elsewhere |
| Linalg.PlaceHolderIsOneZero | src/lga/impl/Linalg.cpp:11-14 | isPlaceHolder holds exactly for the 1 x 1 zero matrix |
| Linalg.PlaceHolderIsNotIdentity | src/lga/impl/Linalg.cpp:11-14 | the placeholder is not an identity, and the 1 x 1 identity is not a placeholder |
| Linalg.Transpose | src/lga/impl/Linalg.cpp:31-41 | the transpose swaps the shape and the indices of every entry |
| Linalg.Mul | src/lga/impl/Linalg.cpp:31-41 | the product of an r x k and a k x c matrix is r x c |
| Linalg.Sub | src/lga/impl/Photogrammetry.cpp:320-330 | the entrywise difference keeps the shape |
| Linalg.Times | src/lga/impl/Linalg.cpp:184-188 | scaling every entry keeps the shape |
| Linalg.Over | src/lga/impl/Linalg.cpp:190-204 | dividing every entry by a non-zero scalar keeps the shape |
| Linalg.TimesOver | src/lga/impl/Linalg.cpp:184-188 | dividing every entry by s and multiplying it back restores the matrix |
| Linalg.MulIdentityRight | src/lga/impl/Linalg.cpp:31-41 | multiplying on the right by an identity changes nothing, so AᵀIA = AᵀA |
| Linalg.GramSymmetric | src/lga/impl/Linalg.cpp:35 | AᵀA is symmetric |
| Linalg.NormalizedEquation | src/lga/impl/Linalg.cpp:31-41 | the result is cols(A) x cols(A): AᵀA when P is the placeholder or an identity, AᵀPA otherwise |
| Linalg.NormalizedEquationIdentity | src/lga/impl/Linalg.cpp:31-41 | with P an identity both branches agree, and the normal matrix is symmetric |
| Linalg.SvdTolerance | src/lga/impl/Linalg.cpp:70 | the tolerance σ₀·max(rows, cols)·1e-12 is non-negative for a non-negative σ₀ |
| Linalg.InvertedSingularValues | src/lga/impl/Linalg.cpp:72-76 | there is one inverted value per singular value |
| Linalg.InvertedSingularValuesKeep | src/lga/impl/Linalg.cpp:75 | each inverted value is 1/σᵢ when σᵢ exceeds the tolerance and exactly 0 otherwise; a kept value times its inverse is 1 |
| Linalg.InvertSingularValues | src/lga/impl/Linalg.cpp:72-76 | the for-loop fills the inverted singular values of the specification |
| Linalg.Diagonal | src/lga/impl/Linalg.cpp:79 | asDiagonal of n values is n x n |
| Linalg.SvdInverse | src/lga/impl/Linalg.cpp:65-81 | V·diag(inverted values)·Uᵀ of an n x n SVD is n x n |
| Linalg.CholeskyInverse | src/lga/impl/Linalg.cpp:48-63 | choleskyInverse of an n x n matrix is n x n |
| Linalg.CholeskyInverseCascade | src/lga/impl/Linalg.cpp:48-63 | the LLT result when it succeeds, else the LDLT result when it succeeds, else svdInverse; only the factorisations actually consulted matter |
| Linalg.Ols | src/lga/impl/Linalg.cpp:83-95 | the QR solve when P is an identity or the placeholder; otherwise a cols(A) x cols(L) solution from the injected inverse |
| Linalg.OlsSolvesNormalEquations | src/lga/impl/Linalg.cpp:89-94 | when the injected inverse really inverts AᵀPA, the weighted solution satisfies AᵀPA·x = AᵀPL |
| Linalg.MulAssociative | src/lga/impl/Linalg.cpp:91-93 | matrix multiplication is associative, which the weighted solution relies on |
| Linalg.MulIdentityLeft | src/lga/impl/Linalg.cpp:53-59 | multiplying on the left by an identity changes nothing |
| Linalg.ValidateCoordinateMatrix | src/lga/impl/Linalg.cpp:140-146 | passes exactly for a matrix with 3 columns, otherwise Matrix_Shape_Error |
| Linalg.ValidateRotationMatrix | src/lga/impl/Linalg.cpp:148-154 | passes exactly for a 3 x 3 matrix, otherwise Matrix_Shape_Error |
| Linalg.Translate | src/lga/impl/Linalg.cpp:157-168 | Matrix_Shape_Error exactly when the input lacks 3 columns; otherwise the same shape with every point less (x, y, z) |
| Linalg.TranslateRoundTrip | src/lga/impl/Linalg.cpp:157-168 | translating back by the opposite offset restores the points |
| Linalg.RotateForward | src/lga/impl/Linalg.cpp:170-175 | Matrix_Shape_Error exactly when coord lacks 3 columns or R is not 3 x 3; otherwise coord·R |
| Linalg.RotateInverse | src/lga/impl/Linalg.cpp:177-182 | Matrix_Shape_Error exactly when coord lacks 3 columns or R is not 3 x 3; otherwise coord·Rᵀ |
| Linalg.RotateRoundTrip | src/lga/impl/Linalg.cpp:170-182 | for an orthogonal R, rotateInverse undoes rotateForward |
| Linalg.Scale | src/lga/impl/Linalg.cpp:184-188 | Matrix_Shape_Error exactly when coord lacks 3 columns; otherwise every entry times s |
| Linalg.ScaleRoundTrip | src/lga/impl/Linalg.cpp:184-188 | scaling by s and then by 1/s restores the points |
| Linalg.Rmse | src/lga/impl/Linalg.cpp:190-204 | rmse has no finite value exactly when n = t |
| Linalg.RmseSquared | src/lga/impl/Linalg.cpp:190-204 | with an exact square root, rmse is non-negative and rmse²·(n - t) equals vᵀv, or vᵀPv when P weights |
| Linalg.SquareSumUnweighted | src/lga/impl/Linalg.cpp:196-199 | the unweighted square sum is the sum of the squared residuals and is never negative |
| Linalg.ErrorMatrix | src/lga/impl/Linalg.cpp:206-209 | errorMatrix has the shape of N |
| Linalg.ErrorMatrixSquares | src/lga/impl/Linalg.cpp:206-209 | each entry is rmse times the square root of N's entry, so it squares to rmse² times that entry |
| ElevAdjust.Proportional | src/lga/impl/OfficialWorkElevAdjust.cpp:54-63 | one initial correction per leg, cut(distance · mean correction) |
| ElevAdjust.Scaled | src/lga/impl/OfficialWorkElevAdjust.cpp:54-63 | correction counts become values one for one |
| ElevAdjust.Plus | src/lga/impl/OfficialWorkElevAdjust.cpp:73-79 | the corrected differences are one per leg |
| ElevAdjust.Elevations | src/lga/impl/OfficialWorkElevAdjust.cpp:81-87 | elev has size + 1 entries and starts at p_beg |
| ElevAdjust.ElevationsStep | src/lga/impl/OfficialWorkElevAdjust.cpp:83-87 | elev[i+1] = elev[i] + corrected_diff[i] |
| ElevAdjust.ElevationsLast | src/lga/impl/OfficialWorkElevAdjust.cpp:81-87 | the last elevation is p_beg plus the sum of the corrected differences |
| ElevAdjust.SumPlus | src/lga/impl/OfficialWorkElevAdjust.cpp:73-79 | the corrected differences add up to the differences plus the corrections |
| ElevAdjust.SumScaled | src/lga/impl/OfficialWorkElevAdjust.cpp:64-71 | the correction values add up to the value of the summed counts |
| ElevAdjust.MeanCorrection | src/lga/impl/OfficialWorkElevAdjust.cpp:50-52 | the mean correction has no finite value exactly when the distances sum to zero |
| ElevAdjust.InitialCorrections | src/lga/impl/OfficialWorkElevAdjust.cpp:54-63 | one initial correction per leg whenever the mean correction is finite |
| ElevAdjust.Assemble | src/lga/impl/OfficialWorkElevAdjust.cpp:47-110 | the report keeps the closure, tolerance = p_tolerence_fn(sum of distances), correction sum = cut(-closure), one correction and corrected difference per leg, size + 1 elevations from p_beg |
| ElevAdjust.Levelling | src/lga/impl/OfficialWorkElevAdjust.cpp:29-110 | a successful run has the report's shape and values; it fails with a non-finite result exactly when there are legs and the distances sum to zero |
| ElevAdjust.ClosedClosure | src/lga/impl/OfficialWorkElevAdjust.cpp:29 | the closure accumulated from zero over the differences equals their sum |
| ElevAdjust.AttachedClosure | src/lga/impl/OfficialWorkElevAdjust.cpp:144 | the closure accumulated from zero, less (end - beg), equals the sum of the differences less the known rise |
| ElevAdjust.ClosedLevelling | src/lga/impl/OfficialWorkElevAdjust.cpp:10-124 | invalid_argument exactly when the distance and diff vectors differ in size; the closure is the sum of the differences |
| ElevAdjust.AttachedLevelling | src/lga/impl/OfficialWorkElevAdjust.cpp:125-237 | invalid_argument exactly when the sizes differ; the closure is the sum of the differences less (end - beg) |
| ElevAdjust.LevellingSuccess | src/lga/impl/OfficialWorkElevAdjust.cpp:47-87 | when the redistribution of the initial corrections succeeds, the run reports exactly the redistributed counts |
| ElevAdjust.AssembleSums | src/lga/impl/OfficialWorkElevAdjust.cpp:64-87 | the reported corrections add up to their counts, and the last elevation is p_beg + Σdiff + Σcorrections |
| ElevAdjust.LevellingUnfold | src/lga/impl/OfficialWorkElevAdjust.cpp:47-87 | a successful run is the report of the successful redistribution of the proportional corrections |
| ElevAdjust.LevellingCloses | src/lga/impl/OfficialWorkElevAdjust.cpp:73-87 | the last elevation is p_beg plus the differences plus the corrections |
| ElevAdjust.LevellingCorrectionSum | src/lga/impl/OfficialWorkElevAdjust.cpp:47-71 | with at least one leg, a threshold no larger than a unit and a cut that keeps whole units, the corrections add up exactly to cut(-closure) |
| ElevAdjust.LevellingReportsCut | src/lga/impl/OfficialWorkElevAdjust.cpp:47-49 | the reported correction sum is cut(-closure) |
| ElevAdjust.LevellingAbsorbsClosure | src/lga/impl/OfficialWorkElevAdjust.cpp:47-87 | when -closure is cut exactly, the last elevation is p_beg + Σdiff - closure |
| ElevAdjust.ClosedLevellingReturnsToStart | src/lga/impl/OfficialWorkElevAdjust.cpp:29-87 | an adjusted closed line ends at the elevation it started from |
| ElevAdjust.AttachedLevellingReachesEnd | src/lga/impl/OfficialWorkElevAdjust.cpp:144-202 | an adjusted attached line ends at the known end elevation |
| ElevAdjust.ShareLoop | src/lga/impl/OfficialWorkElevAdjust.cpp:54-63 | the loop fills a fresh array with the proportional corrections |
| ElevAdjust.CorrectedDiffLoop | src/lga/impl/OfficialWorkElevAdjust.cpp:73-79 | the loop computes diff[i] + corrections[i] for every leg |
| ElevAdjust.ElevationLoop | src/lga/impl/OfficialWorkElevAdjust.cpp:81-87 | the loop computes the running elevations from p_beg |
| ElevAdjust.LevellingRun | src/lga/impl/OfficialWorkElevAdjust.cpp:47-87 | the loops and the in-place redistribution compute the levelling function |
| ElevAdjust.ClosedElevAdjust | src/lga/impl/OfficialWorkElevAdjust.cpp:10-124 | closedElevAdjust as run computes the closed-levelling function |
| ElevAdjust.AttachedElevAdjust | src/lga/impl/OfficialWorkElevAdjust.cpp:125-237 | attachedElevAdjust as run computes the attached-levelling function |
| TraverseAdjust.SizeT | src/lga/impl/OfficialWorkTraverseAdjust.cpp:19 | size_t arithmetic is modulo 2^64 and keeps values already in range |
| TraverseAdjust.ClosedExpected | src/lga/impl/OfficialWorkTraverseAdjust.cpp:47 | the corrected expected angle sum of a closed polygon: (size - 2)·180 degrees, that is size·180 - 360 |
| TraverseAdjust.ClosedExpectedAsWritten | src/lga/impl/OfficialWorkTraverseAdjust.cpp:47 | as written, the expected closed-traverse angle sum is a size_t value: never negative and below 2^64 |
| TraverseAdjust.ClosedExpectedWrapsForOneStation | src/lga/impl/OfficialWorkTraverseAdjust.cpp:47 | as written, (size - 2)·180 in size_t wraps for one station to 2^64 - 180 = 18446744073709551436 degrees where the polygon rule gives -180 |
| TraverseAdjust.ClosedExpectedAgrees | src/lga/impl/OfficialWorkTraverseAdjust.cpp:47 | for at least two stations (and fewer than 2^64) the size_t arithmetic gives the polygon rule |
| TraverseAdjust.ConnectingExpected | src/lga/impl/OfficialWorkTraverseAdjust.cpp:328-330 | the connecting traverse's expected sum is a non-negative size_t multiple of 180 plus the end azimuth less the start azimuth, in degrees |
| TraverseAdjust.ConnectingExpectedValue | src/lga/impl/OfficialWorkTraverseAdjust.cpp:328-330 | the connecting traverse expects size·180 + (end - beg) degrees |
| TraverseAdjust.UniformCorrections | src/lga/impl/OfficialWorkTraverseAdjust.cpp:52-56 | size copies of the uniform correction -cut(f_beta / size) |
| TraverseAdjust.CorrectedAngles | src/lga/impl/OfficialWorkTraverseAdjust.cpp:69-75 | one corrected angle per left angle |
| TraverseAdjust.Azimuths | src/lga/impl/OfficialWorkTraverseAdjust.cpp:82-91 | azimuth has size + 1 entries and starts at p_angle_beg |
| TraverseAdjust.AzimuthsStep | src/lga/impl/OfficialWorkTraverseAdjust.cpp:84-91 | azimuth[i+1] = std(azimuth[i] + corrected[i] - pi) |
| TraverseAdjust.AzimuthsInRange | src/lga/impl/OfficialWorkTraverseAdjust.cpp:84-91 | every azimuth after the first lies in [0, 2 pi] |
| TraverseAdjust.AdjustAngles | src/lga/impl/OfficialWorkTraverseAdjust.cpp:37-80 | the corrections and corrected angles are one per station; the only failure is the out-of-range access on no stations |
| TraverseAdjust.Deltas | src/lga/impl/OfficialWorkTraverseAdjust.cpp:105-115 | one coordinate difference per leg |
| TraverseAdjust.LegShares | src/lga/impl/OfficialWorkTraverseAdjust.cpp:124-134 | one share cut(d[i]/D · -f) per leg |
| TraverseAdjust.CorrectedDeltas | src/lga/impl/OfficialWorkTraverseAdjust.cpp:166-176 | one corrected difference per leg |
| TraverseAdjust.Coordinates | src/lga/impl/OfficialWorkTraverseAdjust.cpp:100-103 | x has size + 1 entries and starts at p_x_beg |
| TraverseAdjust.CoordinatesStep | src/lga/impl/OfficialWorkTraverseAdjust.cpp:188-198 | x[i+1] = cut(x[i] + corrected_dx[i]) |
| TraverseAdjust.AdjustAxis | src/lga/impl/OfficialWorkTraverseAdjust.cpp:117-198 | one correction and corrected difference per leg, size + 1 coordinates from the start; a zero total distance with legs is non-finite, no legs is out of range |
| TraverseAdjust.TotalMisclosure | src/lga/impl/OfficialWorkTraverseAdjust.cpp:119-122 | 1/K has no finite value exactly when the total misclosure f is zero |
| TraverseAdjust.Traverse | src/lga/impl/OfficialWorkTraverseAdjust.cpp:37-198 | a successful run has size + 1 coordinates per axis from the start, one angle correction per station, and reports the expected angle sum |
| TraverseAdjust.ClosedTraverse | src/lga/impl/OfficialWorkTraverseAdjust.cpp:8-284 | invalid_argument exactly when the angle and distance counts differ; expects the polygon sum; coordinates size + 1 |
| TraverseAdjust.Rise | src/lga/impl/OfficialWorkTraverseAdjust.cpp:398-400 | the known rise carries the start to the end |
| TraverseAdjust.ConnectingTraverse | src/lga/impl/OfficialWorkTraverseAdjust.cpp:286-573 | invalid_argument exactly when the angle count is not the distance count plus one; expects size·180 + (end - beg) |
| TraverseAdjust.ConnectingSizeCheck | src/lga/impl/OfficialWorkTraverseAdjust.cpp:302 | the size_t check size - 1 != distances rejects exactly the inputs whose counts differ by other than one, even with no stations |
| TraverseAdjust.Sec2RadAdd | src/lga/impl/OfficialWorkTraverseAdjust.cpp:72-74 | converting seconds to radians is additive |
| TraverseAdjust.CorrectedAngleSum | src/lga/impl/OfficialWorkTraverseAdjust.cpp:69-80 | the corrected angles sum to the left angles plus the total correction in seconds |
| TraverseAdjust.AngleArith | src/lga/impl/OfficialWorkTraverseAdjust.cpp:48-50 | corrections summing to -f_beta bring the left-angle sum to the expected sum |
| TraverseAdjust.AngleTarget | src/lga/impl/OfficialWorkTraverseAdjust.cpp:58-67 | the redistribution difference of the angle corrections is their sum plus f_beta |
| TraverseAdjust.AnglesAdjustedSum | src/lga/impl/OfficialWorkTraverseAdjust.cpp:63-67 | redistributing the angle corrections makes them sum to exactly -f_beta |
| TraverseAdjust.AnglesReachExpected | src/lga/impl/OfficialWorkTraverseAdjust.cpp:48-80 | whatever the initial corrections, once redistributed the corrected angles sum exactly to the expected value |
| TraverseAdjust.AdjustAnglesUnfold | src/lga/impl/OfficialWorkTraverseAdjust.cpp:52-80 | a run whose redistribution succeeds reports the sum of the corrected angles |
| TraverseAdjust.AdjustAnglesCloses | src/lga/impl/OfficialWorkTraverseAdjust.cpp:48-80 | when cut keeps whole units and f_beta is whole, the corrected angles sum exactly to the expected value |
| TraverseAdjust.CorrectedDeltasSum | src/lga/impl/OfficialWorkTraverseAdjust.cpp:166-186 | the corrected differences add up to the differences plus the corrections |
| TraverseAdjust.CoordinatesLast | src/lga/impl/OfficialWorkTraverseAdjust.cpp:188-198 | from a whole start, the last coordinate is the start plus all corrected differences |
| TraverseAdjust.AxisTarget | src/lga/impl/OfficialWorkTraverseAdjust.cpp:145-154 | the redistribution difference of an axis is the initial sum plus the differences less the known rise |
| TraverseAdjust.AxisReachesEnd | src/lga/impl/OfficialWorkTraverseAdjust.cpp:124-198 | whatever the initial shares, once redistributed the coordinates end at the start plus the known rise |
| TraverseAdjust.AdjustAxisCloses | src/lga/impl/OfficialWorkTraverseAdjust.cpp:117-198 | with whole start and rise, an adjusted non-empty axis ends exactly at the start plus the rise |
| TraverseAdjust.WholeIsExact | src/lga/impl/OfficialWorkTraverseAdjust.cpp:188-198 | when cut keeps whole units, a whole number of units is cut exactly |
| TraverseAdjust.TraverseUnfold | src/lga/impl/OfficialWorkTraverseAdjust.cpp:37-198 | a successful run reports the angular stage and the two axis stages |
| TraverseAdjust.TraverseCloses | src/lga/impl/OfficialWorkTraverseAdjust.cpp:37-198 | with whole starts, rises and misclosure, the coordinates end at the start plus the rises and the corrected angles sum to the expected value |
| TraverseAdjust.ClosedTraverseCloses | src/lga/impl/OfficialWorkTraverseAdjust.cpp:8-284 | an adjusted closed traverse returns to its first point and its corrected angles sum to the expected value |
| TraverseAdjust.ConnectingTraverseReachesEnd | src/lga/impl/OfficialWorkTraverseAdjust.cpp:286-573 | an adjusted connecting traverse ends at the known end point and its corrected angles sum to the expected value |
| TraverseAdjust.RiseIsExact | src/lga/impl/OfficialWorkTraverseAdjust.cpp:398-400 | the rise between two whole coordinates is whole |
| TraverseAdjust.ConnectingIsTraverse | src/lga/impl/OfficialWorkTraverseAdjust.cpp:388-400 | the connecting traverse is the shared pipeline with each leg using the azimuth after it and the known rises as target |
| TraverseAdjust.ClosedTraverseAssertHolds | src/lga/impl/OfficialWorkTraverseAdjust.cpp:575-610 | under the closing conditions, closedTraverseAssert holds for any positive thresholds |
| TraverseAdjust.CorrectAnglesLoop | src/lga/impl/OfficialWorkTraverseAdjust.cpp:69-75 | the loop computes the corrected angles |
| TraverseAdjust.AzimuthLoop | src/lga/impl/OfficialWorkTraverseAdjust.cpp:82-91 | the loop, with std() on each step, computes the azimuths |
| TraverseAdjust.DeltaLoop | src/lga/impl/OfficialWorkTraverseAdjust.cpp:105-115 | the loop computes both axes' differences, leg i using azimuth i + offset |
| TraverseAdjust.ShareLoop | src/lga/impl/OfficialWorkTraverseAdjust.cpp:124-134 | the loop fills two fresh arrays with both axes' shares |
| TraverseAdjust.CorrectDeltaLoop | src/lga/impl/OfficialWorkTraverseAdjust.cpp:166-176 | the loop computes the corrected differences on both axes |
| TraverseAdjust.CoordinateLoop | src/lga/impl/OfficialWorkTraverseAdjust.cpp:188-198 | the loop computes the coordinates on both axes |
| TraverseAdjust.AngleRun | src/lga/impl/OfficialWorkTraverseAdjust.cpp:37-80 | the angular loops and the in-place redistribution compute the angular stage |
| TraverseAdjust.AdjustAxisSteps | src/lga/impl/OfficialWorkTraverseAdjust.cpp:124-198 | an axis whose shares can be computed is their redistribution followed by the corrected differences and coordinates |
| TraverseAdjust.RedistributeShares | src/lga/impl/OfficialWorkTraverseAdjust.cpp:145-154 | adjustSumToTarget on one axis's shares leaves the redistribution towards -f, or reports its failure |
| TraverseAdjust.AxesRun | src/lga/impl/OfficialWorkTraverseAdjust.cpp:117-198 | the coordinate loops and both in-place redistributions compute both axis stages |
| TraverseAdjust.TraverseRun | src/lga/impl/OfficialWorkTraverseAdjust.cpp:37-198 | the whole loop pipeline computes the traverse function |
| TraverseAdjust.ClosedTraverseAdjust | src/lga/impl/OfficialWorkTraverseAdjust.cpp:8-284 | closedTraverseAdjust as run computes the closed-traverse function |
| TraverseAdjust.ConnectingTraverseAdjust | src/lga/impl/OfficialWorkTraverseAdjust.cpp:286-573 | connectingTraverseAdjust as run computes the connecting-traverse function |
| ElevNet.MakeVertex | src/lga/impl/OfficialWorkElevNet.hpp:71-77 | a vertex record keeps its name, elevation and control flag, and its is_init flag starts equal to is_control |
| ElevNet.MadeVerticesControlsInit | src/lga/impl/OfficialWorkElevNet.hpp:71-77 | every control point built this way starts with its elevation set, which is what lets the search start from the control points |
| ElevNet.OutEdges | src/lga/impl/OfficialWorkElevNet.hpp:95-100 | the out-edges of a vertex are exactly the runs that leave it, in insertion order, as the adjacency list with vector storage keeps them |
| ElevNet.SeedsAreControls | src/lga/impl/OfficialWorkElevNet.hpp:269-283 | the seeds of the search are exactly the control points, each once, in vertex order, and seeds plus free vertices account for every vertex |
| ElevNet.ColumnsDense | src/lga/impl/OfficialWorkElevNet.hpp:273-283 | a later free vertex gets a strictly larger column than an earlier one |
| ElevNet.ColumnBelowCount | src/lga/impl/OfficialWorkElevNet.hpp:273-283 | the column of a free vertex is below the count of free vertices t |
| ElevNet.ColumnsCovered | src/lga/impl/OfficialWorkElevNet.hpp:273-283 | every column below t belongs to some free vertex, so the columns fill 0..t-1 |
| ElevNet.ColumnsInjective | src/lga/impl/OfficialWorkElevNet.hpp:273-283 | distinct free vertices get distinct columns, each below t |
| ElevNet.IndexVertices | src/lga/impl/OfficialWorkElevNet.hpp:269-283 | the indexing loop returns t, the seeds and the column map; a vertex has a column exactly when it is free, and that column counts the free vertices before it |
| ElevNet.InitTargetKeeps | src/lga/impl/OfficialWorkElevNet.hpp:198-202 | giving the target its elevation changes at most the target, never an already-set vertex, name or control flag; an initialised source leaves an initialised target |
| ElevNet.InitialisingEdgeCloses | src/lga/impl/OfficialWorkElevNet.hpp:198-221 | the run that gives its target an elevation has zero misclosure |
| ElevNet.DesignRowEntries | src/lga/impl/OfficialWorkElevNet.hpp:216-230 | the design row of an examined run holds its entries at row i and leaves every other row unchanged |
| ElevNet.DesignEntryCoefficient | src/lga/impl/OfficialWorkElevNet.hpp:223-230 | a design row equals the observation equation x(target) - x(source) everywhere except, for a run that leaves and enters the same free mark, at that mark's column where it holds +1 instead of 0 |
| ElevNet.Net.constructor | src/lga/impl/OfficialWorkElevNet.hpp:95-100 | a network holds the given vertex and edge records |
| ElevNet.Indices.constructor | src/lga/impl/OfficialWorkElevNet.hpp:267 | the index manager starts with no vertex and no edge index |
| ElevNet.Equations.constructor | src/lga/impl/OfficialWorkElevNet.hpp:295-298 | A is the n x t zero matrix, P the n x n one and L the n x 1 one |
| ElevNet.Visitor.constructor | src/lga/impl/OfficialWorkElevNet.hpp:145-162 | the visitor refers to the network, index manager and matrices it is given, with the flag down and the edge counter at zero |
| ElevNet.Visitor.Copy | src/lga/impl/OfficialWorkElevNet.hpp:300-301 | a copy of the visitor shares the referenced network, index manager and matrices but has its own flag and counter |
| ElevNet.Visitor.NonTreeEdge | src/lga/impl/OfficialWorkElevNet.hpp:172-176 | non_tree_edge raises the flag whatever the edge |
| ElevNet.Visitor.InitialiseTarget | src/lga/impl/OfficialWorkElevNet.hpp:198-202 | the vertices become InitTarget of the old ones |
| ElevNet.Visitor.RecordWeight | src/lga/impl/OfficialWorkElevNet.hpp:211-213 | P(ei, ei) becomes the unit weight over the run length and the run gets row ei |
| ElevNet.Visitor.RecordMisclosure | src/lga/impl/OfficialWorkElevNet.hpp:216-232 | L(ei) becomes its old value plus diff plus the source elevation less the target elevation, times 1000 |
| ElevNet.Visitor.RecordDesign | src/lga/impl/OfficialWorkElevNet.hpp:216-230 | row ei of A gets -1 at a free source's column, then +1 at a free target's column |
| ElevNet.Visitor.ExamineEdge | src/lga/impl/OfficialWorkElevNet.hpp:186-235 | examine_edge initialises the target, writes row ei of P, A and L, records the run's row and advances ei by one, and keeps the matrices fitting the network |
| ElevNet.SeedColors | src/lga/impl/OfficialWorkElevNet.hpp:290-301 | the search starts with the seeds grey and queued in order and every other vertex white |
| ElevNet.ProcessHead | src/lga/impl/OfficialWorkElevNet.hpp:301 | one round pops the queue head, examines its out-edges in order and blackens it, keeping the search invariant; either a vertex is newly reached or the queue shrinks |
| ElevNet.SearchLoop | src/lga/impl/OfficialWorkElevNet.hpp:301 | the rounds run until the queue is empty and keep the search invariant |
| ElevNet.ReachableStep | src/lga/impl/OfficialWorkElevNet.hpp:301 | a run out of a mark reachable from the control points leads to a reachable mark |
| ElevNet.ClosedHoldsWithin | src/lga/impl/OfficialWorkElevNet.hpp:301 | a set of marks holding the seeds and closed under the runs holds every mark at the end of a path of k runs from a seed |
| ElevNet.ReachedIsReachable | src/lga/impl/OfficialWorkElevNet.hpp:301 | a closed set of reachable marks that holds the seeds is exactly the set of marks reachable from the seeds |
| ElevNet.SearchDone | src/lga/impl/OfficialWorkElevNet.hpp:301 | at the end a run is examined exactly when its source was reached, every reached source has a reached target, the reached marks are exactly those a directed path of runs leads to from a control point, and the flag is up exactly when some run was not a tree edge |
| ElevNet.BreadthFirstSearch | src/lga/impl/OfficialWorkElevNet.hpp:300-301 | the search from the control points reaches exactly the marks a directed path of runs leads to from a control point, examines exactly the runs out of reached marks, writes one row of A, P and L per examined run in examination order, initialises each reached mark through one run, and raises the flag exactly when a run was not a tree edge |
| ElevNet.Solve | src/lga/impl/OfficialWorkElevNet.hpp:308-311 | AtAi is t x t, x is t x 1 and V is n x 1 |
| ElevNet.SolveNormalEquations | src/lga/impl/OfficialWorkElevNet.hpp:308-311 | whenever AtAi inverts the normal matrix, 1000x solves the normal equations (AᵀPA)·1000x = AᵀPL |
| ElevNet.Raised | src/lga/impl/OfficialWorkElevNet.hpp:336 | a raised mark has its elevation plus dx, with name and flags unchanged |
| ElevNet.Corrected | src/lga/impl/OfficialWorkElevNet.hpp:345 | a corrected run has its difference plus dv, with endpoints, name and length unchanged |
| ElevNet.CorrectVertices | src/lga/impl/OfficialWorkElevNet.hpp:326-337 | every free mark is raised by its entry of x and every control point is left as it was |
| ElevNet.CorrectOutEdges | src/lga/impl/OfficialWorkElevNet.hpp:340-346 | the out-edges of one vertex get their residuals in order; a run with no row fails with OutOfRange |
| ElevNet.CorrectEdges | src/lga/impl/OfficialWorkElevNet.hpp:339-346 | the run write-back passes exactly when every run has a row, and then every run is corrected by V(row); on failure it is OutOfRange and every run is either unchanged or corrected |
| ElevNet.Survey | src/lga/impl/OfficialWorkElevNet.hpp:267-306 | set-up and search: fresh equations and index manager, the search as BreadthFirstSearch states, and the flag netAdjust tests is always down because the search ran on a copy of the visitor |
| ElevNet.Precheck | src/lga/impl/OfficialWorkElevNet.hpp:285-306 | the checks pass exactly when n >= t, no run is a self-loop and every run has a nonzero length |
| ElevNet.Precision | src/lga/impl/OfficialWorkElevNet.hpp:348-349 | rmse and the error matrix are absent exactly when n = t, and otherwise the error matrix is the one rmse scales |
| ElevNet.CheckedNetwork | src/lga/impl/OfficialWorkElevNet.hpp:269-288 | a network of measured runs has dense columns below t and distinct in-range seeds |
| ElevNet.WriteBack | src/lga/impl/OfficialWorkElevNet.hpp:326-346 | the marks are raised by x, the runs corrected by V, and the result passes exactly when every run has a row |
| ElevNet.AdjustChecked | src/lga/impl/OfficialWorkElevNet.hpp:290-364 | for measured runs, self-loops included, netAdjust searches, solves, writes back and reports the network as it came in together with the precision, as Adjusted says, and succeeds exactly when every run leaves a mark reachable from a control point |
| ElevNet.NetAdjust | src/lga/impl/OfficialWorkElevNet.hpp:255-365 | a network that fails the checks is returned as that error and left untouched; otherwise the adjustment is Adjusted, and it fails, with OutOfRange, exactly when some run leaves a mark that no directed path of runs from a control point reaches |
| ElevNet.PrecheckAsWritten | src/lga/impl/OfficialWorkElevNet.hpp:285-306 | as written, the checks pass exactly when n >= t and every run has a nonzero length; the self-loop check never fails |
| ElevNet.PrecheckAsWrittenDiffers | src/lga/impl/OfficialWorkElevNet.hpp:285-306 | the corrected and as-written checks differ exactly on a network with enough runs and a self-loop, which the corrected checks reject with invalid_argument |
| ElevNet.NetAdjustAsWritten | src/lga/impl/OfficialWorkElevNet.hpp:255-365 | as written, netAdjust adjusts a network with a self-loop like any other and succeeds exactly when every run leaves a reachable mark |
| ElevNet.SelfLoopNetworkChecks | src/lga/impl/OfficialWorkElevNet.hpp:300-306 | on control mark A, free mark B and runs A to B and B to B, the as-written checks pass and every run leaves a reachable mark, while the corrected checks fail with invalid_argument |
| ElevNet.SelfLoopNetwork | src/lga/impl/OfficialWorkElevNet.hpp:300-306 | on that network netAdjust as written returns a result, while the corrected netAdjust returns invalid_argument |
| Photogrammetry.Mean | src/lga/impl/Photogrammetry.cpp:9-11 | a column mean times the number of rows is the column sum |
| Photogrammetry.MakeFrom | src/lga/impl/Photogrammetry.cpp:5-15 | the starting pose sits at the mean of the object points, raised by m·f, with all three angles zero |
| Photogrammetry.MeanShift | src/lga/impl/Photogrammetry.cpp:9-11 | lowering every entry of a column by d lowers its mean by d |
| Photogrammetry.MakeFromTranslated | src/lga/impl/Photogrammetry.cpp:5-15 | translating the object points by an offset moves the starting pose by the same offset and keeps its angles |
| Photogrammetry.Isp2Img | src/lga/impl/Photogrammetry.cpp:76-88 | the image has one (x, y) row per image-space point, and is NonFinite exactly when some point has Z = 0 |
| Photogrammetry.Isp2ImgCollinear | src/lga/impl/Photogrammetry.cpp:76-88 | each image point satisfies the collinearity condition x·Z = -f·X, y·Z = -f·Y with its space point, and is the only point that does |
| Photogrammetry.Isp2ImgOnRay | src/lga/impl/Photogrammetry.cpp:76-88 | scaling image space by a nonzero factor leaves the image unchanged: points on one ray share an image point |
| Photogrammetry.Obj2Aux | src/lga/impl/Photogrammetry.cpp:56-61 | obj2aux fails exactly when the object points are not n x 3, and otherwise keeps one row per point |
| Photogrammetry.Aux2Isp | src/lga/impl/Photogrammetry.cpp:62-75 | aux2isp fails exactly when the points are not n x 3 or the rotation is not 3 x 3, and otherwise keeps one row per point |
| Photogrammetry.Isp2Aux | src/lga/impl/Photogrammetry.cpp:107-118 | isp2aux fails exactly when the points are not n x 3 or the rotation is not 3 x 3, and otherwise keeps one row per point |
| Photogrammetry.Obj2Img | src/lga/impl/Photogrammetry.cpp:90-105 | obj2img fails with a shape error on a malformed input and otherwise gives one image point per object point |
| Photogrammetry.Obj2ImgMovedTogether | src/lga/impl/Photogrammetry.cpp:90-105 | moving the object points and the projection centre by the same offset leaves the image unchanged |
| Photogrammetry.Aux2ObjAsWritten | src/lga/impl/Photogrammetry.cpp:120-125 | as written, aux2obj fails only on a matrix without three columns and subtracts the projection centre from every point, where undoing obj2aux needs it added |
| Photogrammetry.Aux2ObjAsWrittenMovesPoints | src/lga/impl/Photogrammetry.cpp:120-125 | as written, obj2aux followed by aux2obj moves every point by minus twice the projection centre, so it is not the identity |
| Photogrammetry.Aux2Obj | src/lga/impl/Photogrammetry.cpp:120-125 | the corrected aux2obj fails exactly when the points are not n x 3 |
| Photogrammetry.Aux2ObjRoundTrip | src/lga/impl/Photogrammetry.cpp:56-125 | the corrected aux2obj undoes obj2aux |
| Collinearity.ToMatrix26 | src/lga/impl/Photogrammetry.cpp:127-134 | toMatrix26 is a 2 x 6 matrix |
| Collinearity.ToMatrix29 | src/lga/impl/Photogrammetry.cpp:136-143 | toMatrix29 is 2 x 9, its first six columns are toMatrix26 and its last three are the negated first three |
| Collinearity.CceSimplifyAll | src/lga/impl/Photogrammetry.cpp:145-174 | the vertical-photograph coefficients are non-finite exactly when f or H is zero |
| Collinearity.CceKappaOnly | src/lga/impl/Photogrammetry.cpp:175-207 | the kappa-only coefficients are non-finite exactly when f or H is zero |
| Collinearity.CceSimplifyNone | src/lga/impl/Photogrammetry.cpp:208-243 | the rigorous coefficients are non-finite exactly when f or Z is zero |
| Collinearity.KappaOnlyAtZero | src/lga/impl/Photogrammetry.cpp:145-207 | with kappa = 0, sin 0 = 0 and cos 0 = 1, the kappa-only coefficients are exactly the all-simplified ones |
| Collinearity.SimplifyNoneWhenVertical | src/lga/impl/Photogrammetry.cpp:145-243 | for a truly vertical photograph (identity rotation, kappa = omega = 0, Z = -H) the rigorous coefficients are exactly the all-simplified ones |
| Collinearity.CceOf | src/lga/impl/Photogrammetry.cpp:145-243 | the chosen linearisation is non-finite exactly when f is zero or, for the rigorous one, Z is zero and, for the others, H is zero |
| Resection.InterleaveEntries | src/lga/impl/Photogrammetry.cpp:291-296 | row 2i of the residual column holds point i's x difference and row 2i + 1 its y difference |
| Resection.DeinterleaveInterleave | src/lga/impl/Photogrammetry.cpp:291-296 | interleaving loses nothing: reading the 2n x 1 column back as pairs gives the n x 2 differences again |
| Resection.InterleaveDeinterleave | src/lga/impl/Photogrammetry.cpp:291-296 | every 2n x 1 column is the interleaving of its pairs, so the residual layout is a bijection |
| Resection.FillResidual | src/lga/impl/Photogrammetry.cpp:291-296 | the residual loop builds exactly the interleaved column |
| Resection.PointParams | src/lga/impl/Photogrammetry.cpp:298-310 | one linearisation parameter per point, all sharing the pass's rotation |
| Resection.CoefficientMatrixRows | src/lga/impl/Photogrammetry.cpp:312-315 | rows 2i and 2i + 1 of the coefficient matrix are the two rows of point i's toMatrix26 |
| Resection.Coefficients | src/lga/impl/Photogrammetry.cpp:298-316 | the coefficient matrix is 2n x 6, and exists exactly when every point's linearisation is finite |
| Resection.CceSolverFinite | src/lga/impl/Photogrammetry.cpp:299-313 | with a library linearisation, the coefficients of a non-empty point set are finite exactly when f and H = f·m are non-zero (simplified forms), or when f and every image-space Z are non-zero (rigorous form) |
| Resection.FillCoefficients | src/lga/impl/Photogrammetry.cpp:298-316 | the coefficient loop builds exactly Coefficients, or reports a non-finite linearisation |
| Resection.Solve | src/lga/impl/Photogrammetry.cpp:318 | the correction is the QR least-squares solution, one row per unknown |
| Resection.Linearize | src/lga/impl/Photogrammetry.cpp:285-318 | a pass uses the pose's rotation, has a 2n x 6 coefficient matrix, a 2n x 1 residual and six corrections solving them by least squares, and fails only as NonFinite |
| Resection.LinearizePass | src/lga/impl/Photogrammetry.cpp:285-318 | one pass with its residual and coefficient loops is the pass Linearize specifies |
| Resection.Apply | src/lga/impl/Photogrammetry.cpp:376-381 | each of the six pose elements grows by its correction |
| Resection.PassAt | src/lga/impl/Photogrammetry.cpp:283-318 | the pass function of a problem computes Linearize and always yields six corrections |
| Resection.Converged | src/lga/impl/Photogrammetry.cpp:320-322 | the resection stops when all three angle corrections are strictly below the threshold in magnitude; a threshold of zero or below never stops it |
| Resection.Iterate | src/lga/impl/Photogrammetry.cpp:283-382 | a failure is some pass's failure, and a converged outcome carries the pass taken at the returned pose |
| Resection.IterateUnfold | src/lga/impl/Photogrammetry.cpp:283-382 | one round stops on a non-finite or converged pass and otherwise applies the correction and goes on with one pass fewer |
| Resection.IterateConverged | src/lga/impl/Photogrammetry.cpp:283-382 | a converged outcome is the pose after k < budget unconverged passes, and the pass there converges; its correction is not applied |
| Resection.IterateExhausted | src/lga/impl/Photogrammetry.cpp:283-382 | an outcome without convergence is the pose after all budget passes, none of which converged |
| Resection.CorrectedImage | src/lga/impl/Photogrammetry.cpp:328-335 | the corrected image keeps one row per point |
| Resection.CorrectImage | src/lga/impl/Photogrammetry.cpp:330-335 | the image loop writes, for every point, (observed + residual) · 1000 in both coordinates |
| Resection.Residuals | src/lga/impl/Photogrammetry.cpp:324 | v = A·x - l has one entry per observation |
| Resection.ResidualRmse | src/lga/impl/Photogrammetry.cpp:326 | with a true square root, rmse is non-negative and rmse² · (2n - 6) is vᵀv |
| Resection.RmseOfResiduals | src/lga/impl/Photogrammetry.cpp:326 | rmse called without a weight uses the placeholder, so its square sum is the plain vᵀv |
| Resection.Finish | src/lga/impl/Photogrammetry.cpp:324-336 | the converged branch reports the corrected image, the rotation, rmse over 2n - 6 degrees of freedom and a 6 x 6 sigma |
| Resection.FinishPass | src/lga/impl/Photogrammetry.cpp:324-336 | the converged branch with its image loop computes exactly Finish |
| Resection.RunPasses | src/lga/impl/Photogrammetry.cpp:283-382 | the while loop over at most maxLoop passes computes exactly Iterate |
| Resection.Resect | src/lga/impl/Photogrammetry.cpp:245-385 | InvalidArgument exactly for mismatched shapes or fewer than four points; otherwise Success exactly when a precision is reported, and with no passes the result is makeFrom and NotConverged |
| Resection.SpaceResection | src/lga/impl/Photogrammetry.cpp:245-385 | spaceResection computes exactly Resect |
| Resection.ResectSuccess | src/lga/impl/Photogrammetry.cpp:277-385 | a Success outcome is reached from makeFrom after k < maxLoop unconverged passes, and the pass at the returned pose converges |
| Resection.ResectNotConverged | src/lga/impl/Photogrammetry.cpp:277-385 | a NotConverged outcome is the pose after all maxLoop passes from makeFrom, none of which converged |
| Intersection.IntersectRays | src/lga/impl/Photogrammetry.cpp:406-424 | the closed form is non-finite exactly when the two rays are parallel in XZ (X1·Z2 - Z1·X2 = 0) |
| Intersection.IntersectRaysOnBothRays | src/lga/impl/Photogrammetry.cpp:406-424 | the computed point lies on both rays in X and Z, and its Y is the mean of the two rays' Y |
| Intersection.IntersectRaysExact | src/lga/impl/Photogrammetry.cpp:406-424 | when the two rays do meet at a point and are not parallel in XZ, the closed form returns exactly that point |
| Intersection.UniqueScales | src/lga/impl/Photogrammetry.cpp:420-421 | two rays not parallel in XZ determine their scales N1, N2: Cramer's rule is the only solution |
| Intersection.ImageSpace | src/lga/impl/Photogrammetry.cpp:394-401 | each image point (x, y) becomes the image-space point (x, y, -f) |
| Intersection.Directions | src/lga/impl/Photogrammetry.cpp:403-405 | one auxiliary direction per image point |
| Intersection.PairRays | src/lga/impl/Photogrammetry.cpp:406-430 | fails as NonFinite exactly when some pair of rays is parallel in XZ, and otherwise row i is the closed-form intersection of the i-th rays |
| Intersection.ClosedForm | src/lga/impl/Photogrammetry.cpp:387-431 | spaceIntersection of two photographs is non-finite exactly when some pair of rays fails to meet, and otherwise gives, per image-point pair, the intersection of its two rays from the projection centres |
| Intersection.ObjectColumns | src/lga/impl/Photogrammetry.cpp:522-523 | the coefficients by the object coordinates are the negated first three columns of toMatrix26, the last three of toMatrix29 |
| Intersection.BlockEquations | src/lga/impl/Photogrammetry.cpp:470-524 | one photograph's equations for one point are 2 x 3 and 2 x 1, built from the object-coordinate columns, or NonFinite |
| Intersection.BlockOf | src/lga/impl/Photogrammetry.cpp:470-477 | photograph i's equations read the picked row of its image and of the coordinates, and are OutOfRange exactly when that row is past either matrix |
| Intersection.Stack | src/lga/impl/Photogrammetry.cpp:467-525 | the stacked equations exist exactly when every block does, and block i fills rows 2i and 2i + 1 of the 2k x 3 coefficients and the 2k x 1 residual |
| Intersection.StackFirstError | src/lga/impl/Photogrammetry.cpp:467-525 | the stacking stops with the error of the first failing block |
| Intersection.StackError | src/lga/impl/Photogrammetry.cpp:467-525 | a failed stacking carries the error of one of its blocks |
| Intersection.AddToRow | src/lga/impl/Photogrammetry.cpp:556-558 | the correction is added to the point's row and every other row is kept |
| Intersection.CorrectionOf | src/lga/impl/Photogrammetry.cpp:467-527 | the correction of a point is the least-squares solution of its stacked equations; reading each photograph at the point's own row it can only fail as NonFinite |
| Intersection.PrecisionOf | src/lga/impl/Photogrammetry.cpp:547-549 | with a true square root, rmse is non-negative and rmse² · (2·count - 3) is vᵀv, and sigma is 3 x 3 |
| Intersection.PointConverged | src/lga/impl/Photogrammetry.cpp:542-544 | a point converges when all three coordinate corrections are strictly below the threshold in magnitude; a threshold of zero or below never lets it converge |
| Intersection.CorrectRow | src/lga/impl/Photogrammetry.cpp:464-559 | one point's step adds its correction whatever its size; the status becomes Success when all three components are below the threshold, otherwise the pass is marked unconverged, and Success stays paired with a precision |
| Intersection.Sweep | src/lga/impl/Photogrammetry.cpp:462-559 | a pass over the points keeps the coordinates' shape and the Success/precision pairing, and fails only with some point step's error |
| Intersection.Rounds | src/lga/impl/Photogrammetry.cpp:460-564 | the passes keep the coordinates' shape and the pairing, and fail only with some point step's error |
| Intersection.RoundsUnfold | src/lga/impl/Photogrammetry.cpp:460-564 | one round: a failed pass stops, a pass in which every point converged stops, otherwise the loop goes on with one pass fewer |
| Intersection.RoundsStopped | src/lga/impl/Photogrammetry.cpp:460-564 | a result whose last pass had every point converge came after k < budget passes that did not stop the loop |
| Intersection.RoundsExhausted | src/lga/impl/Photogrammetry.cpp:460-564 | a result without a fully converged pass is the state after all budget passes, none of which stopped the loop |
| Intersection.Refine | src/lga/impl/Photogrammetry.cpp:447-565 | the refinement keeps one coordinate row per point, pairs Success with a precision, and with no passes returns its start as NotConverged |
| Intersection.Intersect | src/lga/impl/Photogrammetry.cpp:433-566 | InvalidArgument exactly for fewer than two photographs; otherwise the closed form of the first two, refined; with no passes that closed form as NotConverged |
| Intersection.IntersectStoppingRule | src/lga/impl/Photogrammetry.cpp:460-564 | a result is the last state of the loop from the closed form: either a pass in which every point converged, taken after k < maxLoop passes that did not, or all maxLoop passes with none fully converged |
| Intersection.RefineInRange | src/lga/impl/Photogrammetry.cpp:464-525 | reading each photograph at the point's own row, the refinement can only fail as NonFinite |
| Intersection.IntersectInRange | src/lga/impl/Photogrammetry.cpp:433-566 | reading each photograph at the point's own row, spaceIntersection never reads past a matrix |
| Intersection.PointRowLocal | src/lga/impl/Photogrammetry.cpp:464-525 | reading each photograph at the point's own row, a point's equations depend only on its own row of the coordinates |
| Intersection.AsWrittenSameForEveryPoint | src/lga/impl/Photogrammetry.cpp:471-477 | as written (photograph i read at row i), every point gets the same stacked equations, built from the first count points' rows |
| Intersection.BlockPass | src/lga/impl/Photogrammetry.cpp:470-524 | one photograph's pass with its residual loop computes exactly BlockEquations |
| Intersection.FillSystem | src/lga/impl/Photogrammetry.cpp:467-525 | the loop over photographs computes exactly the stacked equations |
| Intersection.CorrectPoint | src/lga/impl/Photogrammetry.cpp:464-559 | one point of a pass computes exactly CorrectRow |
| Intersection.SweepPoints | src/lga/impl/Photogrammetry.cpp:462-559 | the loop over points computes exactly Sweep |
| Intersection.RunRounds | src/lga/impl/Photogrammetry.cpp:460-564 | the while loop computes exactly Rounds |
| Intersection.SpaceIntersection | src/lga/impl/Photogrammetry.cpp:433-566 | spaceIntersection over two or more photographs computes exactly Intersect |

## Left out

- Floating point: rounding, signed zero, and NaN propagation through arithmetic. Every value is an exact `real`, and a NaN is an explicit `None` or `NonFinite`. `fmod` and the truncating casts are exact in IEEE arithmetic, so they are written out.
- The Eigen factorisations (LLT, LDLT, JacobiSVD, column-pivoting QR) are parameters that report success or failure. Their numerical content is not modelled.
- Transcendental content: `sin`, `cos`, `sqrt` and `atan` are parameters. The rotation matrices `xRotation`, `yRotation`, `zRotation` and `ex2yxzRotation` are a rotation parameter. `Sin_Function` and `Double_Gaussian_Function` are not part of this model.
- The iterative geodesic solvers (`besselFormulaForward/Inverse`, `gaussLemmaForward/Inverse`) are float loops with no provable termination and thresholds defined elsewhere. The Gauss projection series and the ellipsoid helpers are pure float numerics. `Projector.Forward` and `Projector.Inverse` take the series as parameters.
- `cut`, `zeroOr`, `frameAssert` and the `config`/`param` constants are defined in headers that are not part of this model. `cut` is a parameter, applied wherever the library applies it. The corrected-difference sum that the levelling functions report through `zeroOr` is not modelled.
- DataFrame plumbing: column loading, info frames and unit names. The adjustment functions take and return plain sequences instead.
- The Boost graph and property-map machinery is not modelled. The network is an arena of vertex and edge records. Out-edges are the edges with a given source, in insertion order, as `adjacency_list<vecS, vecS>` keeps them. The edge write-back walks them vertex by vertex.
- `Net_Indices_Manager` is not part of this model. Its vertex and edge indices are maps. A `getei` on a run the search never examined is modelled as `Err(OutOfRange)`, and the runs handled before it stay corrected.
- `ElevNet.Precheck` rejects a zero-length run up front as `NonFinite`. In the source, the infinite weight only poisons the solve.
- `ElevNet.NetReport` and `Resection.ResectionResult`: a result member the source leaves default-initialised (rmse and sigma when n = t, or the precision of an unconverged resection) is modelled as absent (`None`).
- All `#if (M_libga_debug)` printing blocks are left out. The debug search at the end of `netAdjust` only prints, so it is not modelled either.
- `Angle::fromString`: the regular-expression match is not modelled. The model starts from the matched sign and digit groups. `toString`, `operator<<` and the format wrappers are not modelled, because they are formatting only.
- `connectingTraverseAssert` and the other result checks are not modelled. Only `closedTraverseAssert` is, as the postcondition of the closed traverse.
- Integer width: counts and indices are unbounded. The one place where a `size_t` wrap matters is the closed-traverse angle sum. `TraverseAdjust.ClosedExpectedAsWritten` computes it modulo 2^64. `TraverseAdjust.ClosedTraverse` and `TraverseAdjust.ClosedTraverseAdjust` use the corrected signed rule `TraverseAdjust.ClosedExpected`, as the fifth Findings row records.
- Caller state: `closedElevAdjust`, `attachedElevAdjust`, `closedTraverseAdjust` and `connectingTraverseAdjust` take the caller's vectors by non-const reference and `std::move` them into the result frame. That leaves the caller's vectors valid but unspecified, in practice empty. The model takes its inputs as values and does not model this effect on the caller.
- ClosureUtils.AdjustReachesTarget: stated only for a cut that keeps whole units, as rounding to `precision` decimals does. For any other cut, the passes that re-cut an element need not move the sum by one unit.
- ClosureUtils.StepCount: a unit that cut rounds to zero makes `dif / unit` divide by zero before the conversion to `int`, which C++ leaves undefined. The model takes it to give no pass. The `int` width of the count is not modelled.
- Angles.ParseNumber: a captured group is read only when it is a digit string, and any other text is an invalid argument. std::stoi also accepts leading blanks, a sign and trailing text after the digits. Those cases are not modelled.
- Angles.SecondsOf: the seconds group is read only when it is a digit string. std::stod also accepts leading blanks, a sign, a decimal point, an exponent and trailing text. Those cases are not modelled.
- `JsonUtils.Enforce2Double`: an int64 or uint64 value becomes the exact real. The source's rounding of integers beyond 2^53 to the nearest double is not modelled.
- `JsonUtils.ReplaceAll` requires a non-empty pattern. Every pattern `preprocessJsonStr` uses is non-empty.
- `Projector.Zone6Band`: stated for non-negative longitudes only, because truncation toward zero puts negative longitudes in a different band.
- `Projector.Zone3Band`: stated for non-negative longitudes only, for the same reason.
- `Projector.ZoneIsBand`: stated for non-negative longitudes only, for the same reason.
- `Projector.CenterMeridianNear`: stated for non-negative longitudes only, for the same reason.
- `Intersection.Observations` requires every photograph to image the same number of points. With different counts, the source's closed form mixes arrays of different lengths, which Eigen does not define.
- `Resection.SpaceResection`: the converged branch (residuals, rmse, sigma, corrected image) runs once, after the pass loop returns the converged pass. The source runs it inside the loop before `break`. The result is the same.
- `Linalg.Matrix`: an Eigen index out of range is undefined behaviour. Where the source indexes a row it has checked, a `requires` states the range. Where the range depends on data, as for the intersection row read at a photograph's index, the model returns `Err(OutOfRange)`.

## Findings

| source | as written | input that shows it | evidently intended | confidence | as-written member | corrected member |
|---|---|---|---|---|---|---|
| src/lga/impl/OfficialWorkElevNet.hpp:300-306 | the visitor goes to `breadth_first_search` by value, so `netAdjust` tests the flag of its own visitor, which is never raised; `non_tree_edge` raises it for every non-tree run anyway, and a self-loop run gets +1 where its observation equation has 0 | control mark A, free mark B, runs A→B and B→B: no exception, and the row of B→B reads x(B) = diff | a run that starts and ends at the same mark fails the adjustment with invalid_argument before anything is solved or written back | high (not executed) | ElevNet.NetAdjustAsWritten, ElevNet.SelfLoopNetwork | ElevNet.Precheck, ElevNet.NetAdjust |
| src/lga/impl/GeodesyProjector.cpp:217-230 | `modifyZone` passes the target zone as `forward`'s interval argument, and the zone is left at -1 | a 6-degree coordinate moved to zone 19: invalid_argument, since 19 is not an interval; a target of 3 switches to 3-degree zones and picks the longitude's own zone | re-project the same point into the target zone with the source's interval | high (not executed) | Projector.ModifyZoneAsWrittenRejects | Projector.ModifyZone, Projector.ModifyZoneKeepsPoint |
| src/lga/impl/Photogrammetry.cpp:120-125 | `aux2obj` calls `translate` with the projection centre exactly as `obj2aux` does, subtracting it a second time | object point (1, 0, 0), projection centre x = 1: obj2aux gives (0, 0, 0) and aux2obj gives (-1, 0, 0) | add the projection centre back, so that aux2obj undoes obj2aux | high (not executed) | Photogrammetry.Aux2ObjAsWrittenMovesPoints | Photogrammetry.Aux2Obj, Photogrammetry.Aux2ObjRoundTrip |
| src/lga/impl/Photogrammetry.cpp:471-477 | the loop over photographs reads `image.row(i)` and `coordinate.row(i)`, i being the photograph index, instead of the point's row | 2 photographs of 3 points: point 2 is corrected from the observations and coordinates of points 0 and 1; 3 photographs of 2 points: row 2 is read past the end | read every photograph at the row of the point being corrected | high (not executed) | Intersection.AsWrittenSameForEveryPoint | Intersection.PointRowLocal, Intersection.IntersectInRange |
| src/lga/impl/OfficialWorkTraverseAdjust.cpp:47 | the expected angle sum `(size - 2) * 180` is computed in `size_t` | one station: 2^64 - 180 = 18446744073709551436 degrees instead of -180 | the polygon rule (n - 2)·180 in signed arithmetic | medium (not executed) | TraverseAdjust.ClosedExpectedWrapsForOneStation | TraverseAdjust.ClosedExpected, TraverseAdjust.ClosedExpectedAgrees |

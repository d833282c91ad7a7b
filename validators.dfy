/** utils/validators.py: the PhysicsValidator checks. Each returns a ValidationResult whose
    confidence starts at 1.0 and is scaled down (or set) as problems are found. */
module Validators {
  import opened Common
  import opened Ordering

  /** What a check found: errors make a result invalid, warnings only lower its confidence. */
  datatype Issue =
    // errors
    | MdBelowTvd
    | MdOutOfRange
    | TvdOutOfRange
    | InclinationOutOfRange
    | EmptyTrajectory
    | MissingDepth(index: nat)
    | DecreasingTvd(index: nat)
    | DiameterOutOfRange
    | NegativePressure
    | ReservoirPressureTooHigh
    | TemperatureOutOfRange
    // warnings
    | VerticalMismatch
    | LargeDeviation
    | NonIncreasingMd(index: nat)
    | UncommonDiameter
    | WellheadPressureHigh
    | LowTemperature
    | HighTemperature

  datatype ValidationResult = ValidationResult(isValid: bool, confidence: real,
                                               errors: seq<Issue>, warnings: seq<Issue>)

  /** The class constants MD_RANGE, TVD_RANGE, INCLINATION_RANGE, DIAMETER_RANGE. */
  const MaxDepth: real := 10000.0
  const MaxInclination: real := 90.0
  const MinDiameter: real := 0.05
  const MaxDiameter: real := 1.0

  predicate InRange(x: real, lo: real, hi: real) { lo <= x <= hi }

  /** A multiplier applied only when its condition holds. */
  function Factor(applies: bool, f: real): real { if applies then f else 1.0 }

  function Power(x: real, n: nat): real { if n == 0 then 1.0 else x * Power(x, n - 1) }

  // ---------------------------------------------------------------- validate_trajectory_point

  /** A vertical well (|inclination| < 0.1) whose md and tvd differ by more than 0.1. */
  predicate VerticalButOffset(md: real, tvd: real, inc: Option<real>)
  {
    inc.Some? && Abs(inc.value) < 0.1 && Abs(md - tvd) > 0.1
  }

  /** md exceeds tvd by more than half of md. */
  predicate LargeGap(md: real, tvd: real) { md - tvd > md * 0.5 }

  function PointErrors(md: real, tvd: real, inc: Option<real>): seq<Issue>
  {
    (if md < tvd then [MdBelowTvd] else []) +
    (if !InRange(md, 0.0, MaxDepth) then [MdOutOfRange] else []) +
    (if !InRange(tvd, 0.0, MaxDepth) then [TvdOutOfRange] else []) +
    (if inc.Some? && !InRange(inc.value, 0.0, MaxInclination) then [InclinationOutOfRange] else [])
  }

  function PointWarnings(md: real, tvd: real, inc: Option<real>): seq<Issue>
  {
    (if VerticalButOffset(md, tvd, inc) then [VerticalMismatch] else []) +
    (if LargeGap(md, tvd) then [LargeDeviation] else [])
  }

  /** x scaled by f when the condition applies. */
  function Scale(x: real, applies: bool, f: real): real { if applies then x * f else x }

  /** Zero for md below tvd; halved per range error; 0.9 and 0.95 for the two warnings. */
  function PointConfidence(md: real, tvd: real, inc: Option<real>): real
  {
    var c0: real := if md < tvd then 0.0 else 1.0;
    var c1 := Scale(c0, !InRange(md, 0.0, MaxDepth), 0.5);
    var c2 := Scale(c1, !InRange(tvd, 0.0, MaxDepth), 0.5);
    var c3 := Scale(c2, inc.Some? && !InRange(inc.value, 0.0, MaxInclination), 0.5);
    var c4 := Scale(c3, VerticalButOffset(md, tvd, inc), 0.9);
    Scale(c4, LargeGap(md, tvd), 0.95)
  }

  method ValidateTrajectoryPoint(md: real, tvd: real, inclination: Option<real>) returns (r: ValidationResult)
    ensures r.errors == PointErrors(md, tvd, inclination)
    ensures r.warnings == PointWarnings(md, tvd, inclination)
    ensures r.confidence == PointConfidence(md, tvd, inclination)
    ensures r.isValid <==> r.errors == []
  {
    var errors: seq<Issue> := [];
    var warnings: seq<Issue> := [];
    var confidence := 1.0;
    ghost var e0: seq<Issue> := if md < tvd then [MdBelowTvd] else [];
    ghost var c0: real := if md < tvd then 0.0 else 1.0;
    if md < tvd {
      errors := errors + [MdBelowTvd];
      confidence := 0.0;
    }
    assert errors == e0 && confidence == c0;
    ghost var e1 := e0 + (if !InRange(md, 0.0, MaxDepth) then [MdOutOfRange] else []);
    ghost var c1 := Scale(c0, !InRange(md, 0.0, MaxDepth), 0.5);
    if !(0.0 <= md <= MaxDepth) {
      errors := errors + [MdOutOfRange];
      confidence := confidence * 0.5;
    }
    assert errors == e1 && confidence == c1;
    ghost var e2 := e1 + (if !InRange(tvd, 0.0, MaxDepth) then [TvdOutOfRange] else []);
    ghost var c2 := Scale(c1, !InRange(tvd, 0.0, MaxDepth), 0.5);
    if !(0.0 <= tvd <= MaxDepth) {
      errors := errors + [TvdOutOfRange];
      confidence := confidence * 0.5;
    }
    assert errors == e2 && confidence == c2;
    ghost var bad := inclination.Some? && !InRange(inclination.value, 0.0, MaxInclination);
    ghost var e3 := e2 + (if bad then [InclinationOutOfRange] else []);
    ghost var c3 := Scale(c2, bad, 0.5);
    ghost var c4 := Scale(c3, VerticalButOffset(md, tvd, inclination), 0.9);
    ghost var w4: seq<Issue> := if VerticalButOffset(md, tvd, inclination) then [VerticalMismatch] else [];
    if inclination.Some? {
      var inc := inclination.value;
      if !(0.0 <= inc <= MaxInclination) {
        errors := errors + [InclinationOutOfRange];
        confidence := confidence * 0.5;
      }
      assert errors == e3 && confidence == c3;
      if Abs(inc) < 0.1 && Abs(md - tvd) > 0.1 {
        warnings := warnings + [VerticalMismatch];
        confidence := confidence * 0.9;
      }
    }
    assert errors == e3 && warnings == w4 && confidence == c4;
    if md - tvd > md * 0.5 {
      warnings := warnings + [LargeDeviation];
      confidence := confidence * 0.95;
    }
    r := ValidationResult(|errors| == 0, confidence, errors, warnings);
  }

  predicate AcceptablePoint(md: real, tvd: real, inc: Option<real>)
  {
    md >= tvd && 0.0 <= md <= MaxDepth && 0.0 <= tvd <= MaxDepth &&
    (inc.Some? ==> 0.0 <= inc.value <= MaxInclination)
  }

  /** A point is valid exactly when md >= tvd and md, tvd and the inclination are in range;
      the two warnings play no part. */
  lemma PointValidIff(md: real, tvd: real, inc: Option<real>)
    ensures PointErrors(md, tvd, inc) == [] <==> AcceptablePoint(md, tvd, inc)
  {
  }

  /** Confidence stays in [0, 1]; md below tvd makes it exactly 0. */
  lemma PointConfidenceRange(md: real, tvd: real, inc: Option<real>)
    ensures 0.0 <= PointConfidence(md, tvd, inc) <= 1.0
    ensures md < tvd ==> PointConfidence(md, tvd, inc) == 0.0
  {
  }

  /** For md >= tvd every error halves the confidence and each warning scales it by its own
      factor. */
  lemma PointConfidenceByIssues(md: real, tvd: real, inc: Option<real>)
    requires md >= tvd
    ensures PointConfidence(md, tvd, inc)
         == Power(0.5, |PointErrors(md, tvd, inc)|)
            * Factor(VerticalMismatch in PointWarnings(md, tvd, inc), 0.9)
            * Factor(LargeDeviation in PointWarnings(md, tvd, inc), 0.95)
  {
    var a, b, c := !InRange(md, 0.0, MaxDepth), !InRange(tvd, 0.0, MaxDepth),
                   inc.Some? && !InRange(inc.value, 0.0, MaxInclination);
    var n := (if a then 1 else 0) + (if b then 1 else 0) + (if c then 1 else 0);
    assert |PointErrors(md, tvd, inc)| == n;
    assert Power(0.5, 1) == 0.5 && Power(0.5, 2) == 0.25 && Power(0.5, 3) == 0.125;
    assert Factor(a, 0.5) * Factor(b, 0.5) * Factor(c, 0.5) == Power(0.5, n);
  }

  /** The test expectations: (1000, 995, 5) is valid with confidence 1; (995, 1000, 5) is
      invalid with confidence 0; 15000/14000 and an inclination of 95 are invalid. */
  lemma PointExamples(md: real, tvd: real, inc: real)
    requires md == 1000.0 && tvd == 995.0 && inc == 5.0
    ensures PointErrors(md, tvd, Some(inc)) == [] && PointConfidence(md, tvd, Some(inc)) == 1.0
    ensures PointErrors(tvd, md, Some(inc)) != [] && PointConfidence(tvd, md, Some(inc)) == 0.0
    ensures PointErrors(15.0 * md, 14.0 * md, Some(inc)) != []
    ensures PointErrors(md, tvd, Some(95.0)) == [InclinationOutOfRange]
  {
  }

  // ---------------------------------------------------------------- validate_trajectory_sequence

  /** A point as a dictionary with optional md, tvd and inclination. */
  datatype SurveyPoint = SurveyPoint(md: Option<real>, tvd: Option<real>, inclination: Option<real>)

  /** point.get('md', 0) and point.get('tvd', 0). */
  function MdOrZero(p: SurveyPoint): real { Get(p.md, 0.0) }
  function TvdOrZero(p: SurveyPoint): real { Get(p.tvd, 0.0) }

  predicate HasDepths(p: SurveyPoint) { p.md.Some? && p.tvd.Some? }

  /** The errors the per-point phase records for point p at index i. */
  function StepErrors(p: SurveyPoint, i: nat): seq<Issue>
  {
    if !HasDepths(p) then [MissingDepth(i)] else PointErrors(p.md.value, p.tvd.value, p.inclination)
  }

  function StepWarnings(p: SurveyPoint): seq<Issue>
  {
    if !HasDepths(p) then [] else PointWarnings(p.md.value, p.tvd.value, p.inclination)
  }

  /** The confidence validate_trajectory_point gives a point that has both depths. */
  function PointConf(p: SurveyPoint): real
    requires HasDepths(p)
  {
    PointConfidence(p.md.value, p.tvd.value, p.inclination)
  }

  /** A point that has both depths, with md >= tvd and md, tvd and inclination in range. */
  predicate PointPasses(p: SurveyPoint)
  {
    HasDepths(p) && AcceptablePoint(p.md.value, p.tvd.value, p.inclination)
  }

  /** The errors of the per-point phase over the first n sorted points. */
  function PointPhaseErrors(s: seq<SurveyPoint>, n: nat): seq<Issue>
    requires n <= |s|
  {
    if n == 0 then [] else PointPhaseErrors(s, n - 1) + StepErrors(s[n - 1], n - 1)
  }

  function PointPhaseWarnings(s: seq<SurveyPoint>, n: nat): seq<Issue>
    requires n <= |s|
  {
    if n == 0 then [] else PointPhaseWarnings(s, n - 1) + StepWarnings(s[n - 1])
  }

  /** Decreasing-TVD errors over the adjacent pairs among the first n sorted points. */
  function PairErrors(s: seq<SurveyPoint>, n: nat): seq<Issue>
    requires n <= |s|
  {
    if n < 2 then []
    else PairErrors(s, n - 1) + (if TvdOrZero(s[n - 1]) < TvdOrZero(s[n - 2]) then [DecreasingTvd(n - 1)] else [])
  }

  /** Non-increasing-MD warnings over the adjacent pairs among the first n sorted points. */
  function PairWarnings(s: seq<SurveyPoint>, n: nat): seq<Issue>
    requires n <= |s|
  {
    if n < 2 then []
    else PairWarnings(s, n - 1) + (if MdOrZero(s[n - 1]) <= MdOrZero(s[n - 2]) then [NonIncreasingMd(n - 1)] else [])
  }

  /** sorted(trajectory_data, key=lambda x: x.get('md', 0)). */
  function SortedSurvey(data: seq<SurveyPoint>): seq<SurveyPoint> { SortBy(data, MdOrZero) }

  method ValidateTrajectorySequence(data: seq<SurveyPoint>) returns (r: ValidationResult)
    ensures data == [] ==> r == ValidationResult(false, 0.0, [EmptyTrajectory], [])
    ensures data != [] ==>
              var s := SortedSurvey(data);
              r.errors == PointPhaseErrors(s, |s|) + PairErrors(s, |s|) &&
              r.warnings == PointPhaseWarnings(s, |s|) + PairWarnings(s, |s|) &&
              r.confidence == SequenceConf(s)
    ensures r.isValid <==> r.errors == []
    ensures 0.0 <= r.confidence <= 1.0
    ensures forall i :: 0 <= i < |SortedSurvey(data)| && HasDepths(SortedSurvey(data)[i]) ==>
              r.confidence <= PointConf(SortedSurvey(data)[i])
    ensures (exists i :: 0 <= i < |SortedSurvey(data)| && !HasDepths(SortedSurvey(data)[i])) ==> r.confidence <= 0.8
    ensures (exists k :: 1 <= k < |SortedSurvey(data)| &&
               TvdOrZero(SortedSurvey(data)[k]) < TvdOrZero(SortedSurvey(data)[k - 1])) ==> r.confidence <= 0.7
  {
    if data == [] {
      return ValidationResult(false, 0.0, [EmptyTrajectory], []);
    }
    var s := SortBy(data, MdOrZero);
    var errors, warnings, confidence := CheckEachPoint(s);
    var pairErrors, pairWarnings, confidence' := CheckAdjacentPairs(s, confidence);
    errors := errors + pairErrors;
    r := ValidationResult(|errors| == 0, confidence', errors, warnings + pairWarnings);
  }

  /** The smallest point confidence among the first n points that have both depths (1.0 if
      there are none). */
  function MinConf(s: seq<SurveyPoint>, n: nat): real
    requires n <= |s|
  {
    if n == 0 then 1.0
    else if !HasDepths(s[n - 1]) then MinConf(s, n - 1)
    else Min(MinConf(s, n - 1), PointConf(s[n - 1]))
  }

  function Min(a: real, b: real): real { if a < b then a else b }

  lemma {:induction false} MinConfBelow(s: seq<SurveyPoint>, n: nat, j: nat)
    requires j < n <= |s| && HasDepths(s[j])
    ensures MinConf(s, n) <= PointConf(s[j])
  {
    if j < n - 1 {
      MinConfBelow(s, n - 1, j);
    }
  }

  /** The confidence the first loop holds after the first n points: scaled by 0.8 for a point
      missing md or tvd, lowered to the point's own confidence otherwise. */
  function PointPhaseConf(s: seq<SurveyPoint>, n: nat): real
    requires n <= |s|
  {
    if n == 0 then 1.0
    else if !HasDepths(s[n - 1]) then PointPhaseConf(s, n - 1) * 0.8
    else Min(PointPhaseConf(s, n - 1), PointConf(s[n - 1]))
  }

  /** The confidence the second loop holds after the pairs among the first n points, starting
      from c: scaled by 0.95 for each md that does not increase and by 0.7 for each tvd that
      drops. */
  function PairConf(s: seq<SurveyPoint>, n: nat, c: real): real
    requires n <= |s|
  {
    if n < 2 then c
    else PairConf(s, n - 1, c) * Factor(MdOrZero(s[n - 1]) <= MdOrZero(s[n - 2]), 0.95)
                               * Factor(TvdOrZero(s[n - 1]) < TvdOrZero(s[n - 2]), 0.7)
  }

  /** The confidence validate_trajectory_sequence reports for the md-sorted points s. */
  function SequenceConf(s: seq<SurveyPoint>): real
  {
    PairConf(s, |s|, PointPhaseConf(s, |s|))
  }

  /** When every point has both depths, the first loop's confidence is the smallest point
      confidence. */
  lemma {:induction false} PointPhaseConfAllPresent(s: seq<SurveyPoint>, n: nat)
    requires n <= |s| && forall i :: 0 <= i < n ==> HasDepths(s[i])
    ensures PointPhaseConf(s, n) == MinConf(s, n)
  {
    if n > 0 {
      PointPhaseConfAllPresent(s, n - 1);
    }
  }

  /** With md strictly increasing and tvd never dropping, the second loop leaves the
      confidence as it found it. */
  lemma {:induction false} PairConfNoIssues(s: seq<SurveyPoint>, n: nat, c: real)
    requires n <= |s|
    requires forall k :: 1 <= k < n ==> MdOrZero(s[k - 1]) < MdOrZero(s[k]) && TvdOrZero(s[k - 1]) <= TvdOrZero(s[k])
    ensures PairConf(s, n, c) == c
  {
    if n >= 2 {
      PairConfNoIssues(s, n - 1, c);
      assert Factor(MdOrZero(s[n - 1]) <= MdOrZero(s[n - 2]), 0.95) == 1.0;
      assert Factor(TvdOrZero(s[n - 1]) < TvdOrZero(s[n - 2]), 0.7) == 1.0;
    }
  }

  /** A sequence whose points all have both depths, whose md strictly increases and whose tvd
      never drops is reported with the smallest point confidence. */
  lemma SequenceConfClean(s: seq<SurveyPoint>)
    requires forall i :: 0 <= i < |s| ==> HasDepths(s[i])
    requires forall k :: 1 <= k < |s| ==> MdOrZero(s[k - 1]) < MdOrZero(s[k]) && TvdOrZero(s[k - 1]) <= TvdOrZero(s[k])
    ensures SequenceConf(s) == MinConf(s, |s|)
  {
    PointPhaseConfAllPresent(s, |s|);
    PairConfNoIssues(s, |s|, PointPhaseConf(s, |s|));
  }

  /** What the first loop of validate_trajectory_sequence knows after the first i points. */
  predicate PointPhase(s: seq<SurveyPoint>, i: nat, errors: seq<Issue>, warnings: seq<Issue>, confidence: real)
  {
    i <= |s| &&
    errors == PointPhaseErrors(s, i) && warnings == PointPhaseWarnings(s, i) &&
    confidence == PointPhaseConf(s, i) &&
    0.0 <= confidence <= MinConf(s, i) && confidence <= 1.0 &&
    ((exists j :: 0 <= j < i && !HasDepths(s[j])) ==> confidence <= 0.8)
  }

  /** The first loop of validate_trajectory_sequence: every point on its own, in md order. */
  method CheckEachPoint(s: seq<SurveyPoint>) returns (errors: seq<Issue>, warnings: seq<Issue>, confidence: real)
    ensures errors == PointPhaseErrors(s, |s|) && warnings == PointPhaseWarnings(s, |s|)
    ensures confidence == PointPhaseConf(s, |s|)
    ensures 0.0 <= confidence <= 1.0
    ensures forall j :: 0 <= j < |s| && HasDepths(s[j]) ==> confidence <= PointConf(s[j])
    ensures (exists j :: 0 <= j < |s| && !HasDepths(s[j])) ==> confidence <= 0.8
  {
    errors, warnings, confidence := [], [], 1.0;
    var i := 0;
    while i < |s|
      invariant 0 <= i <= |s|
      invariant PointPhase(s, i, errors, warnings, confidence)
    {
      if s[i].md.None? || s[i].tvd.None? {
        errors, confidence := MissingPointAt(s, i, errors, warnings, confidence);
      } else {
        errors, warnings, confidence := PresentPointAt(s, i, errors, warnings, confidence);
      }
      i := i + 1;
    }
    forall j | 0 <= j < |s| && HasDepths(s[j]) ensures confidence <= PointConf(s[j]) {
      MinConfBelow(s, |s|, j);
    }
  }

  /** One pass of the first loop over a point that lacks md or tvd. */
  method MissingPointAt(s: seq<SurveyPoint>, i: nat, errors: seq<Issue>, warnings: seq<Issue>, confidence: real)
    returns (errors': seq<Issue>, confidence': real)
    requires i < |s| && !HasDepths(s[i])
    requires PointPhase(s, i, errors, warnings, confidence)
    ensures PointPhase(s, i + 1, errors', warnings, confidence')
  {
    MissingDepthStep(s, i);
    errors' := errors + [MissingDepth(i)];
    confidence' := confidence * 0.8;
  }

  /** One pass of the first loop over a point that has both depths. */
  method PresentPointAt(s: seq<SurveyPoint>, i: nat, errors: seq<Issue>, warnings: seq<Issue>, confidence: real)
    returns (errors': seq<Issue>, warnings': seq<Issue>, confidence': real)
    requires i < |s| && HasDepths(s[i])
    requires PointPhase(s, i, errors, warnings, confidence)
    ensures PointPhase(s, i + 1, errors', warnings', confidence')
  {
    PresentDepthStep(s, i);
    var pointErrors, pointWarnings, pointConfidence := CheckSurveyPoint(s[i], i);
    errors' := errors + pointErrors;
    warnings' := warnings + pointWarnings;
    confidence' := if pointConfidence < confidence then pointConfidence else confidence;
    assert MinConf(s, i + 1) == Min(MinConf(s, i), pointConfidence);
    if exists j :: 0 <= j < i + 1 && !HasDepths(s[j]) {
      var j :| 0 <= j < i + 1 && !HasDepths(s[j]);
      assert j != i && confidence' <= confidence <= 0.8;
    }
  }

  lemma MissingDepthStep(s: seq<SurveyPoint>, i: nat)
    requires i < |s| && !HasDepths(s[i])
    ensures PointPhaseErrors(s, i + 1) == PointPhaseErrors(s, i) + [MissingDepth(i)]
    ensures PointPhaseWarnings(s, i + 1) == PointPhaseWarnings(s, i)
  {
    assert PointPhaseWarnings(s, i) + [] == PointPhaseWarnings(s, i);
  }

  lemma PresentDepthStep(s: seq<SurveyPoint>, i: nat)
    requires i < |s| && HasDepths(s[i])
    ensures PointPhaseErrors(s, i + 1) == PointPhaseErrors(s, i) + StepErrors(s[i], i)
    ensures PointPhaseWarnings(s, i + 1) == PointPhaseWarnings(s, i) + StepWarnings(s[i])
  {
  }

  /** validate_trajectory_point applied to a point that has both depths. */
  method CheckSurveyPoint(p: SurveyPoint, i: nat) returns (errors: seq<Issue>, warnings: seq<Issue>, confidence: real)
    requires HasDepths(p)
    ensures errors == StepErrors(p, i) && warnings == StepWarnings(p)
    ensures confidence == PointConf(p) && 0.0 <= confidence <= 1.0
  {
    var result := ValidateTrajectoryPoint(p.md.value, p.tvd.value, p.inclination);
    PointConfidenceRange(p.md.value, p.tvd.value, p.inclination);
    errors, warnings, confidence := result.errors, result.warnings, result.confidence;
  }

  /** The second loop of validate_trajectory_sequence: each point against the one before it. */
  method CheckAdjacentPairs(s: seq<SurveyPoint>, confidence0: real)
    returns (errors: seq<Issue>, warnings: seq<Issue>, confidence: real)
    requires 0.0 <= confidence0 <= 1.0
    ensures errors == PairErrors(s, |s|) && warnings == PairWarnings(s, |s|)
    ensures confidence == PairConf(s, |s|, confidence0)
    ensures 0.0 <= confidence <= confidence0
    ensures (exists k :: 1 <= k < |s| && TvdOrZero(s[k]) < TvdOrZero(s[k - 1])) ==> confidence <= 0.7
  {
    errors, warnings, confidence := [], [], confidence0;
    var k := 1;
    while k < |s|
      invariant 1 <= k <= |s| || (|s| == 0 && k == 1)
      invariant errors == PairErrors(s, if |s| == 0 then 0 else k)
      invariant warnings == PairWarnings(s, if |s| == 0 then 0 else k)
      invariant confidence == PairConf(s, if |s| == 0 then 0 else k, confidence0)
      invariant 0.0 <= confidence <= confidence0
      invariant (exists j :: 1 <= j < k && j < |s| && TvdOrZero(s[j]) < TvdOrZero(s[j - 1])) ==> confidence <= 0.7
    {
      if MdOrZero(s[k]) <= MdOrZero(s[k - 1]) {
        warnings := warnings + [NonIncreasingMd(k)];
        confidence := confidence * 0.95;
      }
      if TvdOrZero(s[k]) < TvdOrZero(s[k - 1]) {
        errors := errors + [DecreasingTvd(k)];
        confidence := confidence * 0.7;
      }
      k := k + 1;
    }
  }

  /** The reported decreasing-TVD pairs are exactly those where tvd drops. */
  lemma {:induction false} PairErrorsExact(s: seq<SurveyPoint>, n: nat, e: Issue)
    requires n <= |s|
    ensures e in PairErrors(s, n) <==>
              e.DecreasingTvd? && 1 <= e.index < n && TvdOrZero(s[e.index]) < TvdOrZero(s[e.index - 1])
  {
    if n >= 2 {
      PairErrorsExact(s, n - 1, e);
    }
  }

  /** The reported non-increasing-MD pairs are exactly those where md does not increase. */
  lemma {:induction false} PairWarningsExact(s: seq<SurveyPoint>, n: nat, e: Issue)
    requires n <= |s|
    ensures e in PairWarnings(s, n) <==>
              e.NonIncreasingMd? && 1 <= e.index < n && MdOrZero(s[e.index]) <= MdOrZero(s[e.index - 1])
  {
    if n >= 2 {
      PairWarningsExact(s, n - 1, e);
    }
  }

  /** After the sort (any list sorted by md) a non-increasing MD can only be a repeated MD, and
      it is only a warning. */
  lemma RepeatedMdOnlyWarns(s: seq<SurveyPoint>, k: nat)
    requires SortedBy(s, MdOrZero)
    ensures NonIncreasingMd(k) in PairWarnings(s, |s|) <==>
              1 <= k < |s| && MdOrZero(s[k]) == MdOrZero(s[k - 1])
    ensures NonIncreasingMd(k) !in PairErrors(s, |s|)
  {
    PairWarningsExact(s, |s|, NonIncreasingMd(k));
    PairErrorsExact(s, |s|, NonIncreasingMd(k));
    if 1 <= k < |s| {
      assert MdOrZero(s[k - 1]) <= MdOrZero(s[k]);
    }
  }

  lemma {:induction false} PointPhaseErrorsEmpty(s: seq<SurveyPoint>, n: nat)
    requires n <= |s|
    ensures PointPhaseErrors(s, n) == [] <==> forall i :: 0 <= i < n ==> PointPasses(s[i])
  {
    if n > 0 {
      var a, b := PointPhaseErrors(s, n - 1), StepErrors(s[n - 1], n - 1);
      PointPhaseErrorsEmpty(s, n - 1);
      StepErrorsEmpty(s[n - 1], n - 1);
      assert |a + b| == |a| + |b|;
    }
  }

  lemma StepErrorsEmpty(p: SurveyPoint, i: nat)
    ensures StepErrors(p, i) == [] <==> PointPasses(p)
  {
    if HasDepths(p) {
      PointValidIff(p.md.value, p.tvd.value, p.inclination);
    }
  }

  lemma {:induction false} PairErrorsEmpty(s: seq<SurveyPoint>, n: nat)
    requires n <= |s|
    ensures PairErrors(s, n) == [] <==> forall k :: 1 <= k < n ==> TvdOrZero(s[k - 1]) <= TvdOrZero(s[k])
  {
    if n >= 2 {
      PairErrorsEmpty(s, n - 1);
    }
  }

  /** A non-empty sequence, sorted by md into s, is valid exactly when every point of s has
      both depths and passes the point checks, and tvd never decreases along s; md ties do not
      matter. */
  lemma SequenceValidIff(s: seq<SurveyPoint>)
    ensures PointPhaseErrors(s, |s|) + PairErrors(s, |s|) == [] <==>
              (forall i :: 0 <= i < |s| ==> PointPasses(s[i])) &&
              (forall k :: 1 <= k < |s| ==> TvdOrZero(s[k - 1]) <= TvdOrZero(s[k]))
  {
    PointPhaseErrorsEmpty(s, |s|);
    PairErrorsEmpty(s, |s|);
  }

  // ---------------------------------------------------------------- validate_casing_diameter

  /** Common casing inner diameters in metres (2", 4.5", 5.5", 7", 9 5/8", 13 3/8"). */
  const CommonSizes: seq<real> := [0.05, 0.114, 0.140, 0.178, 0.244, 0.340]

  predicate NearCommonSize(d: real)
  {
    exists i :: 0 <= i < |CommonSizes| && Abs(d - CommonSizes[i]) < 0.01
  }

  method ValidateCasingDiameter(d: real) returns (r: ValidationResult)
    ensures r.isValid <==> MinDiameter <= d <= MaxDiameter
    ensures r.isValid <==> r.errors == []
    ensures r.errors == if MinDiameter <= d <= MaxDiameter then [] else [DiameterOutOfRange]
    ensures r.warnings == if NearCommonSize(d) then [] else [UncommonDiameter]
    ensures r.confidence == Factor(!(MinDiameter <= d <= MaxDiameter), 0.5) * Factor(!NearCommonSize(d), 0.95)
    ensures 0.0 < r.confidence <= 1.0
  {
    var errors: seq<Issue> := [];
    var warnings: seq<Issue> := [];
    var confidence := 1.0;
    if !(MinDiameter <= d <= MaxDiameter) {
      errors := errors + [DiameterOutOfRange];
      confidence := 0.5;
    }
    var near := exists i | 0 <= i < |CommonSizes| :: Abs(d - CommonSizes[i]) < 0.01;
    if !near {
      warnings := warnings + [UncommonDiameter];
      confidence := confidence * 0.95;
    }
    r := ValidationResult(|errors| == 0, confidence, errors, warnings);
  }

  /** 13 3/8" = 0.33973 m is within 0.01 of a common size, so it gets full confidence. */
  lemma ThirteenThreeEighthsIsCommon()
    ensures MinDiameter <= 0.33973 <= MaxDiameter && NearCommonSize(0.33973)
  {
    assert Abs(0.33973 - CommonSizes[5]) < 0.01;
  }

  // ---------------------------------------------------------------- validate_pressure / validate_temperature

  method ValidatePressure(pressureBar: real, context: string) returns (r: ValidationResult)
    ensures r.isValid <==> r.errors == []
    ensures r.isValid <==> pressureBar >= 0.0 && !(context == "reservoir" && pressureBar > 1000.0)
    ensures pressureBar < 0.0 ==> !r.isValid && r.confidence == 0.0
    ensures WellheadPressureHigh in r.warnings <==> context == "wellhead" && pressureBar > 300.0
    ensures r.errors == (if pressureBar < 0.0 then [NegativePressure] else []) +
                        (if context == "reservoir" && pressureBar > 1000.0 then [ReservoirPressureTooHigh] else [])
    ensures r.warnings == if context == "wellhead" && pressureBar > 300.0 then [WellheadPressureHigh] else []
    ensures r.confidence == (if pressureBar < 0.0 then 0.0 else 1.0)
                            * Factor(context == "reservoir" && pressureBar > 1000.0, 0.5)
                            * Factor(context == "wellhead" && pressureBar > 300.0, 0.8)
    ensures 0.0 <= r.confidence <= 1.0
  {
    var errors: seq<Issue> := [];
    var warnings: seq<Issue> := [];
    var confidence := 1.0;
    if pressureBar < 0.0 {
      errors := errors + [NegativePressure];
      confidence := 0.0;
    }
    if context == "reservoir" && pressureBar > 1000.0 {
      errors := errors + [ReservoirPressureTooHigh];
      confidence := confidence * 0.5;
    } else if context == "wellhead" && pressureBar > 300.0 {
      warnings := warnings + [WellheadPressureHigh];
      confidence := confidence * 0.8;
    }
    r := ValidationResult(|errors| == 0, confidence, errors, warnings);
  }

  method ValidateTemperature(tempCelsius: real) returns (r: ValidationResult)
    ensures r.isValid <==> r.errors == []
    ensures r.isValid <==> 0.0 <= tempCelsius <= 300.0
    ensures LowTemperature in r.warnings <==> tempCelsius < 50.0
    ensures HighTemperature in r.warnings <==> tempCelsius > 250.0
    ensures r.errors == if 0.0 <= tempCelsius <= 300.0 then [] else [TemperatureOutOfRange]
    ensures r.warnings == (if tempCelsius < 50.0 then [LowTemperature] else []) +
                          (if tempCelsius > 250.0 then [HighTemperature] else [])
    ensures r.confidence == Factor(!(0.0 <= tempCelsius <= 300.0), 0.5)
                            * Factor(tempCelsius < 50.0, 0.9) * Factor(tempCelsius > 250.0, 0.9)
    ensures 0.0 < r.confidence <= 1.0
  {
    var errors: seq<Issue> := [];
    var warnings: seq<Issue> := [];
    var confidence := 1.0;
    if !(0.0 <= tempCelsius <= 300.0) {
      errors := errors + [TemperatureOutOfRange];
      confidence := confidence * 0.5;
    }
    if tempCelsius < 50.0 {
      warnings := warnings + [LowTemperature];
      confidence := confidence * 0.9;
    }
    if tempCelsius > 250.0 {
      warnings := warnings + [HighTemperature];
      confidence := confidence * 0.9;
    }
    r := ValidationResult(|errors| == 0, confidence, errors, warnings);
  }
}

/** utils/validation.py: physics checks on trajectory points, pipe diameters, fluid properties
    and whole trajectories, each returning a verdict and the list of problems found. */
module Validation {
  import opened Common
  import opened Ordering

  // ---------------------------------------------------------------- records and settings

  /** A trajectory point as a dictionary: each key may be absent. */
  datatype Point = Point(md: Option<real>, tvd: Option<real>, inc: Option<real>, pipeId: Option<real>)

  /** The `validation` settings; an absent entry (or an absent configuration) takes the
      default named beside each accessor below. */
  datatype Config = Config(mdTvdTolerance: Option<real>, inclinationMaxDeg: Option<real>,
                           inclinationWarningDeg: Option<real>, pipeIdMinMm: Option<real>,
                           pipeIdMaxMm: Option<real>, fluidDensityMin: Option<real>,
                           fluidDensityMax: Option<real>)

  /** No configuration at all. */
  const NoConfig := Config(None, None, None, None, None, None, None)

  function Tolerance(c: Config): real { Get(c.mdTvdTolerance, 1.0) }
  function MaxInclination(c: Config): real { Get(c.inclinationMaxDeg, 90.0) }
  function MinPipeMm(c: Config): real { Get(c.pipeIdMinMm, 50.0) }
  function MaxPipeMm(c: Config): real { Get(c.pipeIdMaxMm, 1000.0) }
  function MinDensity(c: Config): real { Get(c.fluidDensityMin, 800.0) }
  function MaxDensity(c: Config): real { Get(c.fluidDensityMax, 1200.0) }

  datatype PointError =
    | MissingMd
    | MissingTvd
    | PhysicallyImpossible            // md below tvd by more than the tolerance
    | NegativeInclination
    | InclinationExceedsMaximum
    | PipeBelowMinimum
    | PipeExceedsMaximum

  datatype FluidWarning = DensityBelowRange | DensityAboveRange | ViscosityOutOfRange

  datatype ListError =
    | TrajectoryEmpty
    | FewerThanTwoPoints
    | InvalidPoint(index: nat, md: Option<real>, errors: seq<PointError>)
    | NotIncreasing(index: nat, previous: real, current: real)

  // ---------------------------------------------------------------- validate_pipe_diameter

  /** The diameter, converted to millimetres, lies within the configured bounds. */
  predicate PipeInRange(diameter: real, c: Config)
  {
    MinPipeMm(c) <= diameter * 1000.0 <= MaxPipeMm(c)
  }

  /** The problems validate_pipe_diameter reports. */
  function PipeErrors(diameter: real, c: Config): seq<PointError>
  {
    var mm := diameter * 1000.0;
    if mm < MinPipeMm(c) then [PipeBelowMinimum]
    else if mm > MaxPipeMm(c) then [PipeExceedsMaximum]
    else []
  }

  method ValidatePipeDiameter(diameter: real, c: Config) returns (valid: bool, errors: seq<PointError>)
    ensures errors == PipeErrors(diameter, c)
    ensures valid <==> errors == []
  {
    errors := [];
    var diameterMm := diameter * 1000.0;
    if diameterMm < MinPipeMm(c) {
      errors := errors + [PipeBelowMinimum];
      return false, errors;
    }
    if diameterMm > MaxPipeMm(c) {
      errors := errors + [PipeExceedsMaximum];
      return false, errors;
    }
    return true, errors;
  }

  /** A diameter passes exactly when it is in range; otherwise exactly one reason is given,
      the lower bound being checked first. */
  lemma PipeErrorsIff(diameter: real, c: Config)
    ensures PipeErrors(diameter, c) == [] <==> PipeInRange(diameter, c)
    ensures |PipeErrors(diameter, c)| <= 1
    ensures diameter * 1000.0 < MinPipeMm(c) ==> PipeErrors(diameter, c) == [PipeBelowMinimum]
  {
  }

  /** With the default bounds 50 mm and 1000 mm: 0.244 m passes, 0.01 m is below the minimum,
      2.0 m exceeds the maximum. */
  lemma PipeDefaults()
    ensures PipeErrors(0.244, NoConfig) == []
    ensures PipeErrors(0.01, NoConfig) == [PipeBelowMinimum]
    ensures PipeErrors(2.0, NoConfig) == [PipeExceedsMaximum]
  {
  }

  // ---------------------------------------------------------------- validate_trajectory_point

  /** What a point must satisfy: both depths present, md not below tvd by more than the
      tolerance, inclination (if present) in [0, max] and pipe diameter (if present) in range.
      The inclination warning threshold plays no part. */
  predicate AcceptablePoint(p: Point, c: Config)
  {
    p.md.Some? && p.tvd.Some? && p.md.value >= p.tvd.value - Tolerance(c) &&
    (p.inc.Some? ==> 0.0 <= p.inc.value <= MaxInclination(c)) &&
    (p.pipeId.Some? ==> PipeInRange(p.pipeId.value, c))
  }

  /** The problems validate_trajectory_point reports: both missing depths, or else the first
      failing check. */
  function PointErrors(p: Point, c: Config): seq<PointError>
  {
    if p.md.None? || p.tvd.None? then MissingDepths(p)
    else DepthErrors(p.md.value, p.tvd.value, p, c)
  }

  /** The missing depths, md first. */
  function MissingDepths(p: Point): seq<PointError>
  {
    if p.md.None? && p.tvd.None? then [MissingMd, MissingTvd]
    else if p.md.None? then [MissingMd]
    else if p.tvd.None? then [MissingTvd]
    else []
  }

  /** The first failing check once both depths are known. */
  function DepthErrors(md: real, tvd: real, p: Point, c: Config): seq<PointError>
  {
    if md < tvd - Tolerance(c) then [PhysicallyImpossible]
    else if p.inc.Some? && p.inc.value < 0.0 then [NegativeInclination]
    else if p.inc.Some? && p.inc.value > MaxInclination(c) then [InclinationExceedsMaximum]
    else if p.pipeId.Some? then PipeErrors(p.pipeId.value, c)
    else []
  }

  method ValidateTrajectoryPoint(p: Point, c: Config) returns (valid: bool, errors: seq<PointError>)
    ensures errors == PointErrors(p, c)
    ensures valid <==> errors == []
  {
    errors := [];
    if p.md.None? {
      errors := errors + [MissingMd];
    }
    if p.tvd.None? {
      errors := errors + [MissingTvd];
    }
    if errors != [] {
      return false, errors;
    }
    var md, tvd := p.md.value, p.tvd.value;
    if md < tvd - Tolerance(c) {
      errors := errors + [PhysicallyImpossible];
      return false, errors;
    }
    if p.inc.Some? {
      var inc := p.inc.value;
      if inc < 0.0 {
        errors := errors + [NegativeInclination];
        return false, errors;
      }
      if inc > MaxInclination(c) {
        errors := errors + [InclinationExceedsMaximum];
        return false, errors;
      }
      // above the warning threshold the source only logs
    }
    if p.pipeId.Some? {
      var pipeValid, pipeErrors := ValidatePipeDiameter(p.pipeId.value, c);
      if !pipeValid {
        errors := errors + pipeErrors;
        return false, errors;
      }
    }
    return true, errors;
  }

  /** A point is reported without problems exactly when it is acceptable. */
  lemma PointErrorsIff(p: Point, c: Config)
    ensures PointErrors(p, c) == [] <==> AcceptablePoint(p, c)
  {
    if p.md.Some? && p.tvd.Some? && p.pipeId.Some? {
      PipeErrorsIff(p.pipeId.value, c);
    }
  }

  /** Each missing depth is reported, and nothing else is. */
  lemma PointMissingDepths(p: Point, c: Config)
    requires p.md.None? || p.tvd.None?
    ensures MissingMd in PointErrors(p, c) <==> p.md.None?
    ensures MissingTvd in PointErrors(p, c) <==> p.tvd.None?
    ensures forall e :: e in PointErrors(p, c) ==> e == MissingMd || e == MissingTvd
  {
  }

  /** With both depths present at most one problem is reported; md below tvd by more than the
      tolerance is reported as physically impossible, and md up to the tolerance below tvd is
      not. */
  lemma PointDepthOrder(p: Point, c: Config)
    requires p.md.Some? && p.tvd.Some?
    ensures |PointErrors(p, c)| <= 1
    ensures PhysicallyImpossible in PointErrors(p, c) <==> p.md.value < p.tvd.value - Tolerance(c)
  {
  }

  /** The checks in the tests, with no configuration: (1000, 995, 1.5) passes, (1000, 1005) is
      physically impossible, inclinations -1.5 and 95 are negative and excessive, and a point
      without tvd reports it missing. */
  lemma PointExamples(md: real, tvd: real, inc: real)
    requires md == 1000.0 && tvd == 995.0 && inc == 1.5
    ensures PointErrors(Point(Some(md), Some(tvd), Some(inc), None), NoConfig) == []
    ensures PointErrors(Point(Some(md), Some(tvd + 10.0), Some(inc), None), NoConfig) == [PhysicallyImpossible]
    ensures PointErrors(Point(Some(md), Some(tvd), Some(-inc), None), NoConfig) == [NegativeInclination]
    ensures PointErrors(Point(Some(md), Some(tvd), Some(95.0), None), NoConfig) == [InclinationExceedsMaximum]
    ensures PointErrors(Point(Some(md), None, None, None), NoConfig) == [MissingTvd]
  {
  }

  // ---------------------------------------------------------------- validate_fluid_properties

  /** The warnings of validate_fluid_properties, in the order it appends them: the density
      warning (below, else above the configured range), then the viscosity warning. */
  function FluidWarnings(density: Option<real>, viscosity: Option<real>, c: Config): seq<FluidWarning>
  {
    (if density.Some? && density.value < MinDensity(c) then [DensityBelowRange]
     else if density.Some? && density.value > MaxDensity(c) then [DensityAboveRange]
     else []) +
    (if viscosity.Some? && (viscosity.value < 0.0001 || viscosity.value > 0.01) then [ViscosityOutOfRange] else [])
  }

  /** Each warning appears exactly when its condition holds, at most once, density before
      viscosity. */
  lemma FluidWarningsSpec(density: Option<real>, viscosity: Option<real>, c: Config)
    ensures DensityBelowRange in FluidWarnings(density, viscosity, c) <==> density.Some? && density.value < MinDensity(c)
    ensures DensityAboveRange in FluidWarnings(density, viscosity, c) <==>
              density.Some? && MinDensity(c) <= density.value && density.value > MaxDensity(c)
    ensures ViscosityOutOfRange in FluidWarnings(density, viscosity, c) <==>
              viscosity.Some? && (viscosity.value < 0.0001 || viscosity.value > 0.01)
    ensures |FluidWarnings(density, viscosity, c)| <= 2
    ensures forall i, j :: 0 <= i < j < |FluidWarnings(density, viscosity, c)| ==>
              FluidWarnings(density, viscosity, c)[i] != FluidWarnings(density, viscosity, c)[j] &&
              FluidWarnings(density, viscosity, c)[j] == ViscosityOutOfRange
  {
  }

  /** The warnings validate_fluid_properties reports; it never rejects. */
  method ValidateFluidProperties(density: Option<real>, viscosity: Option<real>, c: Config)
    returns (valid: bool, warnings: seq<FluidWarning>)
    ensures valid
    ensures warnings == FluidWarnings(density, viscosity, c)
    ensures DensityBelowRange in warnings <==> density.Some? && density.value < MinDensity(c)
    ensures DensityAboveRange in warnings <==>
              density.Some? && MinDensity(c) <= density.value && density.value > MaxDensity(c)
    ensures ViscosityOutOfRange in warnings <==>
              viscosity.Some? && (viscosity.value < 0.0001 || viscosity.value > 0.01)
    ensures |warnings| <= 2
  {
    warnings := [];
    if density.Some? {
      var minDensity, maxDensity := MinDensity(c), MaxDensity(c);
      if density.value < minDensity {
        warnings := warnings + [DensityBelowRange];
      } else if density.value > maxDensity {
        warnings := warnings + [DensityAboveRange];
      }
    }
    if viscosity.Some? {
      if viscosity.value < 0.0001 || viscosity.value > 0.01 {
        warnings := warnings + [ViscosityOutOfRange];
      }
    }
    return true, warnings;
  }

  // ---------------------------------------------------------------- validate_trajectory_list

  /** The md of each point that has one, in list order. */
  function MdValues(traj: seq<Point>): (mds: seq<real>)
    ensures |mds| <= |traj|
  {
    if traj == [] then []
    else
      var p := traj[|traj| - 1];
      MdValues(traj[..|traj| - 1]) + (if p.md.Some? then [p.md.value] else [])
  }

  /** The md list holds exactly the mds the points carry; when every point has one, it lists
      them position by position. */
  lemma MdValuesContents(traj: seq<Point>)
    ensures forall i :: 0 <= i < |traj| && traj[i].md.Some? ==> traj[i].md.value in MdValues(traj)
    ensures forall x :: x in MdValues(traj) ==> exists i :: 0 <= i < |traj| && traj[i].md == Some(x)
    ensures (forall i :: 0 <= i < |traj| ==> traj[i].md.Some?) ==>
              |MdValues(traj)| == |traj| && forall i :: 0 <= i < |traj| ==> MdValues(traj)[i] == traj[i].md.value
  {
    MdValuesMembers(traj);
    if forall i :: 0 <= i < |traj| ==> traj[i].md.Some? {
      MdValuesAligned(traj);
    }
  }

  lemma {:induction false} MdValuesMembers(traj: seq<Point>)
    ensures forall i :: 0 <= i < |traj| && traj[i].md.Some? ==> traj[i].md.value in MdValues(traj)
    ensures forall x :: x in MdValues(traj) ==> exists i :: 0 <= i < |traj| && traj[i].md == Some(x)
  {
    if traj != [] {
      var front := traj[..|traj| - 1];
      MdValuesMembers(front);
      var last := traj[|traj| - 1];
      var tail: seq<real> := if last.md.Some? then [last.md.value] else [];
      assert MdValues(traj) == MdValues(front) + tail;
      forall i | 0 <= i < |traj| && traj[i].md.Some? ensures traj[i].md.value in MdValues(traj) {
        if i < |front| {
          assert front[i] == traj[i];
        }
      }
      forall x | x in MdValues(traj) ensures exists i :: 0 <= i < |traj| && traj[i].md == Some(x) {
        if x in MdValues(front) {
          var i :| 0 <= i < |front| && front[i].md == Some(x);
          assert traj[i] == front[i];
        } else {
          assert traj[|traj| - 1].md == Some(x);
        }
      }
    }
  }

  lemma {:induction false} MdValuesAligned(traj: seq<Point>)
    requires forall i :: 0 <= i < |traj| ==> traj[i].md.Some?
    ensures |MdValues(traj)| == |traj| && forall i :: 0 <= i < |traj| ==> MdValues(traj)[i] == traj[i].md.value
  {
    if traj != [] {
      var front := traj[..|traj| - 1];
      assert forall i :: 0 <= i < |front| ==> front[i] == traj[i];
      MdValuesAligned(front);
    }
  }

  /** One InvalidPoint entry per point (among the first n) that fails, in list order. */
  function InvalidPoints(traj: seq<Point>, c: Config, n: nat): seq<ListError>
    requires n <= |traj|
  {
    if n == 0 then []
    else
      var p := traj[n - 1];
      InvalidPoints(traj, c, n - 1) + PointReport(n - 1, p, c)
  }

  /** The entry for the point at position i: none when it passes. */
  function PointReport(i: nat, p: Point, c: Config): seq<ListError>
  {
    var errors := PointErrors(p, c);
    if errors != [] then [InvalidPoint(i, p.md, errors)] else []
  }

  /** One NotIncreasing entry per adjacent pair (among the first n values) that does not
      strictly increase. */
  function SequenceErrors(mds: seq<real>, n: nat): seq<ListError>
    requires n <= |mds|
  {
    if n < 2 then []
    else
      SequenceErrors(mds, n - 1) +
        (if mds[n - 1] <= mds[n - 2] then [NotIncreasing(n - 1, mds[n - 2], mds[n - 1])] else [])
  }

  /** The problems validate_trajectory_list reports. */
  function TrajectoryErrors(traj: seq<Point>, c: Config): seq<ListError>
  {
    if traj == [] then [TrajectoryEmpty]
    else
      (if |traj| < 2 then [FewerThanTwoPoints] else []) +
      InvalidPoints(traj, c, |traj|) + SequenceErrors(MdValues(traj), |MdValues(traj)|)
  }

  method ValidateTrajectoryList(traj: seq<Point>, c: Config) returns (valid: bool, errors: seq<ListError>)
    ensures errors == TrajectoryErrors(traj, c)
    ensures valid <==> errors == []
  {
    if traj == [] {
      return false, [TrajectoryEmpty];
    }
    errors := [];
    if |traj| < 2 {
      errors := errors + [FewerThanTwoPoints];
    }
    var pointErrors := CheckPoints(traj, c);
    errors := errors + pointErrors;
    var mdValues := CollectMds(traj);
    if |mdValues| >= 2 {
      var orderErrors := CheckIncreasing(mdValues);
      errors := errors + orderErrors;
    } else {
      assert SequenceErrors(mdValues, |mdValues|) == [];
      assert errors + [] == errors;
    }
    valid := |errors| == 0;
  }

  /** The first loop of validate_trajectory_list: each point through validate_trajectory_point. */
  method CheckPoints(traj: seq<Point>, c: Config) returns (errors: seq<ListError>)
    ensures errors == InvalidPoints(traj, c, |traj|)
  {
    errors := [];
    var i := 0;
    while i < |traj|
      invariant 0 <= i <= |traj|
      invariant errors == InvalidPoints(traj, c, i)
    {
      var pointValid, pointErrors := ValidateTrajectoryPoint(traj[i], c);
      InvalidPointsSnoc(traj, c, i, pointErrors);
      if !pointValid {
        errors := errors + [InvalidPoint(i, traj[i].md, pointErrors)];
      }
      i := i + 1;
    }
  }

  /** The second loop: the md of each point that has one. */
  method CollectMds(traj: seq<Point>) returns (mdValues: seq<real>)
    ensures mdValues == MdValues(traj)
  {
    mdValues := [];
    var i := 0;
    while i < |traj|
      invariant 0 <= i <= |traj|
      invariant mdValues == MdValues(traj[..i])
    {
      MdValuesSnoc(traj, i);
      if traj[i].md.Some? {
        mdValues := mdValues + [traj[i].md.value];
      }
      i := i + 1;
    }
    assert traj[..|traj|] == traj;
  }

  /** The third loop: every adjacent pair of md values must strictly increase. */
  method CheckIncreasing(mdValues: seq<real>) returns (errors: seq<ListError>)
    requires |mdValues| >= 2
    ensures errors == SequenceErrors(mdValues, |mdValues|)
  {
    errors := [];
    var k := 1;
    while k < |mdValues|
      invariant 1 <= k <= |mdValues|
      invariant errors == SequenceErrors(mdValues, k)
    {
      assert SequenceErrors(mdValues, k + 1) == SequenceErrors(mdValues, k) +
        (if mdValues[k] <= mdValues[k - 1] then [NotIncreasing(k, mdValues[k - 1], mdValues[k])] else []);
      if mdValues[k] <= mdValues[k - 1] {
        errors := errors + [NotIncreasing(k, mdValues[k - 1], mdValues[k])];
      }
      k := k + 1;
    }
  }

  lemma InvalidPointsSnoc(traj: seq<Point>, c: Config, i: nat, pointErrors: seq<PointError>)
    requires i < |traj| && pointErrors == PointErrors(traj[i], c)
    ensures InvalidPoints(traj, c, i + 1)
         == InvalidPoints(traj, c, i) + (if pointErrors != [] then [InvalidPoint(i, traj[i].md, pointErrors)] else [])
  {
  }

  lemma MdValuesSnoc(traj: seq<Point>, i: nat)
    requires i < |traj|
    ensures MdValues(traj[..i + 1]) == MdValues(traj[..i]) + (if traj[i].md.Some? then [traj[i].md.value] else [])
  {
    assert traj[..i + 1][..i] == traj[..i];
    assert traj[..i + 1][i] == traj[i];
  }

  lemma {:induction false} InvalidPointsEmpty(traj: seq<Point>, c: Config, n: nat)
    requires n <= |traj|
    ensures InvalidPoints(traj, c, n) == [] <==> forall i :: 0 <= i < n ==> AcceptablePoint(traj[i], c)
  {
    if n > 0 {
      InvalidPointsEmpty(traj, c, n - 1);
      PointReportEmpty(n - 1, traj[n - 1], c);
      var before, last := InvalidPoints(traj, c, n - 1), PointReport(n - 1, traj[n - 1], c);
      assert InvalidPoints(traj, c, n) == before + last;
      assert before + last == [] <==> before == [] && last == [];
      if forall i :: 0 <= i < n ==> AcceptablePoint(traj[i], c) {
        assert AcceptablePoint(traj[n - 1], c);
      } else {
        var i :| 0 <= i < n && !AcceptablePoint(traj[i], c);
        assert i < n - 1 ==> before != [];
      }
    }
  }

  /** A point contributes no entry exactly when it is acceptable. */
  lemma PointReportEmpty(i: nat, p: Point, c: Config)
    ensures PointReport(i, p, c) == [] <==> AcceptablePoint(p, c)
  {
    PointErrorsIff(p, c);
  }

  lemma {:induction false} SequenceErrorsEmpty(mds: seq<real>, n: nat)
    requires n <= |mds|
    ensures SequenceErrors(mds, n) == [] <==> forall k :: 1 <= k < n ==> mds[k - 1] < mds[k]
  {
    if n >= 2 {
      SequenceErrorsEmpty(mds, n - 1);
    }
  }

  /** Adjacent strict increase is strict increase between any two positions. */
  lemma {:induction false} AdjacentIncreasing(mds: seq<real>)
    requires forall k :: 1 <= k < |mds| ==> mds[k - 1] < mds[k]
    ensures forall i, j :: 0 <= i < j < |mds| ==> mds[i] < mds[j]
    decreases |mds|
  {
    if |mds| > 1 {
      var p := mds[..|mds| - 1];
      AdjacentIncreasing(p);
      forall i, j | 0 <= i < j < |mds| ensures mds[i] < mds[j] {
        if j < |p| {
          assert p[i] < p[j];
        } else if i < j - 1 {
          assert p[i] < p[j - 1];
        }
      }
    }
  }

  /** A trajectory passes exactly when it has at least two points, every point is acceptable
      and the measured depths strictly increase in list order (the list is not re-sorted). */
  lemma TrajectoryValidIff(traj: seq<Point>, c: Config)
    ensures TrajectoryErrors(traj, c) == [] <==>
              |traj| >= 2 && (forall i :: 0 <= i < |traj| ==> AcceptablePoint(traj[i], c)) &&
              (forall i, j :: 0 <= i < j < |MdValues(traj)| ==> MdValues(traj)[i] < MdValues(traj)[j])
  {
    var mds := MdValues(traj);
    InvalidPointsEmpty(traj, c, |traj|);
    SequenceErrorsEmpty(mds, |mds|);
    if forall k :: 1 <= k < |mds| ==> mds[k - 1] < mds[k] {
      AdjacentIncreasing(mds);
    }
  }

  /** A lone point is always rejected as too few. */
  lemma TrajectorySinglePoint(p: Point, c: Config)
    ensures FewerThanTwoPoints in TrajectoryErrors([p], c)
  {
  }

  /** The adjacent pairs reported are exactly those that do not increase. */
  lemma {:induction false} SequenceErrorsExact(mds: seq<real>, n: nat, e: ListError)
    requires n <= |mds|
    ensures e in SequenceErrors(mds, n) <==>
              e.NotIncreasing? && 1 <= e.index < n && mds[e.index] <= mds[e.index - 1] &&
              e.previous == mds[e.index - 1] && e.current == mds[e.index]
  {
    if n >= 2 {
      SequenceErrorsExact(mds, n - 1, e);
    }
  }
}

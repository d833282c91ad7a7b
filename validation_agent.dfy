/** agents/validation_agent.py: the ValidationAgent, which checks an extraction result, reports
    errors, warnings and recommendations, and tells the user what is missing. Messages are
    tagged kinds carrying the numbers their text would show. */
module ValidationAgent {
  import opened Common
  import Validation

  /** The agent's configuration: the `validation` settings, the `default_fluid_density` entry
      of the same section, and `extraction.confidence_threshold`. */
  datatype AgentConfig = AgentConfig(validation: Validation.Config, defaultFluidDensity: Option<real>,
                                     confidenceThreshold: Option<real>)

  function Threshold(c: AgentConfig): real { Get(c.confidenceThreshold, 0.7) }

  function DefaultDensity(c: AgentConfig): real { Get(c.defaultFluidDensity, 1000.0) }

  /** A casing interval dictionary; the pipe_id key may be absent. */
  datatype CasingInterval = CasingInterval(md: Option<real>, pipeId: Option<real>)

  /** The extraction result dictionary; a missing list key reads as an empty list. */
  datatype ExtractionResult = ExtractionResult(trajectory: seq<Validation.Point>, casing: seq<CasingInterval>,
                                               merged: seq<Validation.Point>, confidence: Option<real>,
                                               hasFluidProperties: bool)

  datatype ReportError =
    | TrajectoryError(error: Validation.ListError)   // "Trajectory: ..."
    | MergedError(error: Validation.ListError)       // "Merged: ..."

  datatype ReportWarning =
    | NoTrajectory
    | MissingPipeId(index: nat)
    | PipeOutOfRange(index: nat, mm: real)
    | NoCasing
    | NotMerged
    | LowConfidence(confidence: real, threshold: real)

  datatype Recommendation = ReviewManually | NoWellData | MissingTrajectory | MissingCasing

  /** The report dictionary validate_extraction returns. */
  datatype Report = Report(isValid: bool, errors: seq<ReportError>, warnings: seq<ReportWarning>,
                           confidence: real, recommendations: seq<Recommendation>)

  // ---------------------------------------------------------------- validate_extraction

  /** A list the agent validates passes: it is empty (and so skipped) or validate_trajectory_list
      accepts it. */
  predicate ListPasses(points: seq<Validation.Point>, c: Validation.Config)
  {
    points == [] || Validation.TrajectoryErrors(points, c) == []
  }

  /** The errors of a non-empty list, each tagged with the list it came from. */
  function ListErrors(points: seq<Validation.Point>, c: Validation.Config, merged: bool): seq<ReportError>
  {
    if points == [] then [] else Tag(Validation.TrajectoryErrors(points, c), merged)
  }

  /** The f-string prefix "Trajectory: " or "Merged: " on each error. */
  function Tag(errors: seq<Validation.ListError>, merged: bool): (r: seq<ReportError>)
    ensures |r| == |errors|
  {
    seq(|errors|, i requires 0 <= i < |errors| => if merged then MergedError(errors[i]) else TrajectoryError(errors[i]))
  }

  /** A casing interval that draws a warning: no pipe_id, or one outside the configured range. */
  predicate BadInterval(iv: CasingInterval, c: Validation.Config)
  {
    iv.pipeId.None? || !Validation.PipeInRange(iv.pipeId.value, c)
  }

  /** The warning for the bad interval at position i. */
  function WarningFor(i: nat, iv: CasingInterval, c: Validation.Config): ReportWarning
  {
    if iv.pipeId.None? then MissingPipeId(i) else PipeOutOfRange(i, iv.pipeId.value * 1000.0)
  }

  /** The warnings of the first n casing intervals. */
  function CasingWarnings(casing: seq<CasingInterval>, c: Validation.Config, n: nat): seq<ReportWarning>
    requires n <= |casing|
  {
    if n == 0 then []
    else
      CasingWarnings(casing, c, n - 1) +
        if BadInterval(casing[n - 1], c) then [WarningFor(n - 1, casing[n - 1], c)] else []
  }

  /** The single missing-data recommendation of the if/elif chain, if any. */
  function MissingDataRecommendation(e: ExtractionResult): seq<Recommendation>
  {
    if e.trajectory == [] && e.casing == [] then [NoWellData]
    else if e.trajectory == [] then [MissingTrajectory]
    else if e.casing == [] then [MissingCasing]
    else []
  }

  /** The warnings validate_extraction collects, in the order it appends them. */
  function Warnings(e: ExtractionResult, c: AgentConfig): seq<ReportWarning>
  {
    var confidence := Get(e.confidence, 0.0);
    (if e.trajectory == [] then [NoTrajectory] else []) +
    (if e.casing == [] then [NoCasing] else CasingWarnings(e.casing, c.validation, |e.casing|)) +
    (if e.merged == [] && e.trajectory != [] && e.casing != [] then [NotMerged] else []) +
    (if confidence < Threshold(c) then [LowConfidence(confidence, Threshold(c))] else [])
  }

  /** The recommendations validate_extraction collects. */
  function Recommendations(e: ExtractionResult, c: AgentConfig): seq<Recommendation>
  {
    (if Get(e.confidence, 0.0) < Threshold(c) then [ReviewManually] else []) + MissingDataRecommendation(e)
  }

  /** The report validate_extraction builds. */
  function Validate(e: ExtractionResult, c: AgentConfig): Report
  {
    Report(ListPasses(e.trajectory, c.validation) && ListPasses(e.merged, c.validation),
           ListErrors(e.trajectory, c.validation, false) + ListErrors(e.merged, c.validation, true),
           Warnings(e, c), Get(e.confidence, 0.0), Recommendations(e, c))
  }

  method ValidateExtraction(e: ExtractionResult, c: AgentConfig) returns (report: Report)
    ensures report == Validate(e, c)
  {
    var isValid := true;
    var errors: seq<ReportError> := [];
    var warnings: seq<ReportWarning> := [];
    var confidence := Get(e.confidence, 0.0);
    var recommendations: seq<Recommendation> := [];

    var trajectoryValid, trajectoryErrors := CheckList(e.trajectory, c.validation, false);
    if !trajectoryValid {
      isValid := false;
      errors := errors + trajectoryErrors;
    }
    assert errors == trajectoryErrors;
    if e.trajectory == [] {
      warnings := warnings + [NoTrajectory];
    }

    if e.casing != [] {
      var casingWarnings := CheckCasing(e.casing, c.validation);
      warnings := warnings + casingWarnings;
    } else {
      warnings := warnings + [NoCasing];
    }

    assert warnings == (if e.trajectory == [] then [NoTrajectory] else []) +
                       (if e.casing == [] then [NoCasing] else CasingWarnings(e.casing, c.validation, |e.casing|));
    var mergedValid, mergedErrors := CheckList(e.merged, c.validation, true);
    if !mergedValid {
      isValid := false;
      errors := errors + mergedErrors;
    }
    assert errors == trajectoryErrors + mergedErrors;
    if e.merged == [] && e.trajectory != [] && e.casing != [] {
      warnings := warnings + [NotMerged];
    }
    assert warnings == (if e.trajectory == [] then [NoTrajectory] else []) +
                       (if e.casing == [] then [NoCasing] else CasingWarnings(e.casing, c.validation, |e.casing|)) +
                       (if e.merged == [] && e.trajectory != [] && e.casing != [] then [NotMerged] else []);

    var threshold := Threshold(c);
    if confidence < threshold {
      warnings := warnings + [LowConfidence(confidence, threshold)];
      recommendations := recommendations + [ReviewManually];
    }
    assert warnings == Warnings(e, c);
    assert recommendations == if confidence < threshold then [ReviewManually] else [];

    var advice := MissingDataAdvice(e);
    recommendations := recommendations + advice;
    assert recommendations == Recommendations(e, c);
    assert isValid == (ListPasses(e.trajectory, c.validation) && ListPasses(e.merged, c.validation));

    report := Report(isValid, errors, warnings, confidence, recommendations);
  }

  /** The if/elif chain of missing-data recommendations. */
  method MissingDataAdvice(e: ExtractionResult) returns (advice: seq<Recommendation>)
    ensures advice == MissingDataRecommendation(e)
  {
    advice := [];
    if e.trajectory == [] && e.casing == [] {
      advice := advice + [NoWellData];
    } else if e.trajectory == [] {
      advice := advice + [MissingTrajectory];
    } else if e.casing == [] {
      advice := advice + [MissingCasing];
    }
  }

  /** One list's block of validate_extraction: an empty list is skipped, a non-empty one goes
      through validate_trajectory_list and its errors are tagged. */
  method CheckList(points: seq<Validation.Point>, c: Validation.Config, merged: bool)
    returns (valid: bool, errors: seq<ReportError>)
    ensures valid == ListPasses(points, c) && errors == ListErrors(points, c, merged)
    ensures valid ==> errors == []
  {
    valid, errors := true, [];
    if points != [] {
      var listValid, listErrors := Validation.ValidateTrajectoryList(points, c);
      if !listValid {
        valid := false;
        errors := Tag(listErrors, merged);
      }
    }
  }

  /** The loop over the casing intervals. */
  method CheckCasing(casing: seq<CasingInterval>, c: Validation.Config) returns (warnings: seq<ReportWarning>)
    ensures warnings == CasingWarnings(casing, c, |casing|)
  {
    warnings := [];
    var minMm, maxMm := Validation.MinPipeMm(c), Validation.MaxPipeMm(c);
    for i := 0 to |casing|
      invariant warnings == CasingWarnings(casing, c, i)
    {
      var interval := casing[i];
      if interval.pipeId.None? {
        warnings := warnings + [MissingPipeId(i)];
      } else {
        var pipeIdMm := interval.pipeId.value * 1000.0;
        if pipeIdMm < minMm || pipeIdMm > maxMm {
          warnings := warnings + [PipeOutOfRange(i, pipeIdMm)];
        }
      }
    }
  }

  /** The report is valid exactly when it lists no error, and exactly when each non-empty list
      has at least two acceptable points with strictly increasing measured depths. Casing
      problems never make it invalid. */
  lemma ValidityFromLists(e: ExtractionResult, c: AgentConfig)
    ensures Validate(e, c).isValid <==> Validate(e, c).errors == []
    ensures Validate(e, c).isValid <==> ListSound(e.trajectory, c.validation) && ListSound(e.merged, c.validation)
  {
    ListPassesIff(e.trajectory, c.validation);
    ListPassesIff(e.merged, c.validation);
    ListErrorsEmpty(e.trajectory, c.validation, false);
    ListErrorsEmpty(e.merged, c.validation, true);
  }

  /** An empty list, or one with at least two points, every point acceptable and measured
      depths strictly increasing in list order. */
  predicate ListSound(points: seq<Validation.Point>, c: Validation.Config)
  {
    points == [] ||
    (|points| >= 2 && (forall i :: 0 <= i < |points| ==> Validation.AcceptablePoint(points[i], c)) &&
     (forall i, j :: 0 <= i < j < |Validation.MdValues(points)| ==> Validation.MdValues(points)[i] < Validation.MdValues(points)[j]))
  }

  lemma ListPassesIff(points: seq<Validation.Point>, c: Validation.Config)
    ensures ListPasses(points, c) ==> ListSound(points, c)
    ensures ListSound(points, c) ==> ListPasses(points, c)
  {
    if points != [] {
      Validation.TrajectoryValidIff(points, c);
    }
  }

  lemma ListErrorsEmpty(points: seq<Validation.Point>, c: Validation.Config, merged: bool)
    ensures ListPasses(points, c) <==> ListErrors(points, c, merged) == []
  {
    assert |ListErrors(points, c, merged)| == 0 <==> ListPasses(points, c);
  }

  /** Changing only the casing intervals or the confidence changes neither the verdict nor the
      errors. */
  lemma CasingOnlyWarns(e: ExtractionResult, c: AgentConfig, casing: seq<CasingInterval>, confidence: Option<real>)
    ensures Validate(e.(casing := casing, confidence := confidence), c).isValid == Validate(e, c).isValid
    ensures Validate(e.(casing := casing, confidence := confidence), c).errors == Validate(e, c).errors
  {
  }

  /** Exactly one warning per bad casing interval, in interval order, and no other. */
  lemma {:induction false} CasingWarningsPerInterval(casing: seq<CasingInterval>, c: Validation.Config, n: nat)
    requires n <= |casing|
    ensures var w := CasingWarnings(casing, c, n);
            forall k :: 0 <= k < |w| ==> (w[k].MissingPipeId? || w[k].PipeOutOfRange?) && w[k].index < n &&
                                         BadInterval(casing[w[k].index], c) && w[k] == WarningFor(w[k].index, casing[w[k].index], c)
    ensures var w := CasingWarnings(casing, c, n);
            forall k, l :: 0 <= k < l < |w| ==> w[k].index < w[l].index
    ensures var w := CasingWarnings(casing, c, n);
            forall i :: 0 <= i < n && BadInterval(casing[i], c) ==> exists k :: 0 <= k < |w| && w[k].index == i
    decreases n
  {
    if n > 0 {
      CasingWarningsPerInterval(casing, c, n - 1);
      var before := CasingWarnings(casing, c, n - 1);
      var w := CasingWarnings(casing, c, n);
      forall i | 0 <= i < n && BadInterval(casing[i], c) ensures exists k :: 0 <= k < |w| && w[k].index == i {
        if i < n - 1 {
          var k :| 0 <= k < |before| && before[k].index == i;
          assert w[k] == before[k];
        } else {
          assert w[|before|].index == i;
        }
      }
    }
  }

  /** Which of the fixed warnings the report carries. */
  lemma WarningsSpec(e: ExtractionResult, c: AgentConfig)
    ensures NoTrajectory in Warnings(e, c) <==> e.trajectory == []
    ensures NoCasing in Warnings(e, c) <==> e.casing == []
    ensures NotMerged in Warnings(e, c) <==> e.merged == [] && e.trajectory != [] && e.casing != []
    ensures LowConfidence(Get(e.confidence, 0.0), Threshold(c)) in Warnings(e, c) <==> Get(e.confidence, 0.0) < Threshold(c)
    ensures Validate(e, c).confidence == Get(e.confidence, 0.0)
  {
    var w := CasingWarnings(e.casing, c.validation, |e.casing|);
    CasingWarningsIndexed(e.casing, c.validation);
    IndexedOnly(w, NoTrajectory);
    IndexedOnly(w, NoCasing);
    IndexedOnly(w, NotMerged);
    IndexedOnly(w, LowConfidence(Get(e.confidence, 0.0), Threshold(c)));
  }

  lemma CasingWarningsIndexed(casing: seq<CasingInterval>, c: Validation.Config)
    ensures forall k :: 0 <= k < |CasingWarnings(casing, c, |casing|)| ==>
              CasingWarnings(casing, c, |casing|)[k].MissingPipeId? || CasingWarnings(casing, c, |casing|)[k].PipeOutOfRange?
  {
    CasingWarningsPerInterval(casing, c, |casing|);
  }

  /** A list of interval warnings holds no warning of another kind. */
  lemma IndexedOnly(w: seq<ReportWarning>, x: ReportWarning)
    requires forall k :: 0 <= k < |w| ==> w[k].MissingPipeId? || w[k].PipeOutOfRange?
    requires !x.MissingPipeId? && !x.PipeOutOfRange?
    ensures x !in w
  {
    forall k | 0 <= k < |w| ensures w[k] != x {
    }
  }

  /** The recommendations: one to review manually exactly when the confidence is below the
      threshold, and one missing-data recommendation unless both lists are present. */
  lemma RecommendationsSpec(e: ExtractionResult, c: AgentConfig)
    ensures ReviewManually in Recommendations(e, c) <==> Get(e.confidence, 0.0) < Threshold(c)
    ensures |Recommendations(e, c)| ==
              (if Get(e.confidence, 0.0) < Threshold(c) then 1 else 0) + (if e.trajectory != [] && e.casing != [] then 0 else 1)
    ensures NoWellData in Recommendations(e, c) <==> e.trajectory == [] && e.casing == []
    ensures MissingTrajectory in Recommendations(e, c) <==> e.trajectory == [] && e.casing != []
    ensures MissingCasing in Recommendations(e, c) <==> e.trajectory != [] && e.casing == []
  {
  }

  // ---------------------------------------------------------------- validate_fluid_properties

  /** The fluid report: a verdict and the warnings of utils/validation.py. */
  datatype FluidReport = FluidReport(isValid: bool, warnings: seq<Validation.FluidWarning>)

  /** The density and viscosity entries, either of which may be absent. */
  method ValidateFluidProperties(density: Option<real>, viscosity: Option<real>, c: AgentConfig)
    returns (report: FluidReport)
    ensures report.isValid
    ensures report.warnings == Validation.FluidWarnings(density, viscosity, c.validation)
    ensures Validation.DensityBelowRange in report.warnings <==>
              density.Some? && density.value < Validation.MinDensity(c.validation)
    ensures Validation.DensityAboveRange in report.warnings <==>
              density.Some? && Validation.MinDensity(c.validation) <= density.value && density.value > Validation.MaxDensity(c.validation)
    ensures Validation.ViscosityOutOfRange in report.warnings <==>
              viscosity.Some? && (viscosity.value < 0.0001 || viscosity.value > 0.01)
  {
    var isValid := true;
    var valid, warnings := Validation.ValidateFluidProperties(density, viscosity, c.validation);
    if !valid {
      isValid := false;
    }
    report := FluidReport(isValid, [] + warnings);
  }

  // ---------------------------------------------------------------- get_missing_data_prompt

  datatype Prompt = TrajectoryPrompt | CasingPrompt

  /** The success message, or the prompts joined by blank lines. */
  datatype PromptText = AllExtracted | Ask(prompts: seq<Prompt>)

  function MissingDataPrompt(e: ExtractionResult): PromptText
  {
    var prompts := (if e.trajectory == [] then [TrajectoryPrompt] else []) + (if e.casing == [] then [CasingPrompt] else []);
    if prompts == [] then AllExtracted else Ask(prompts)
  }

  method GetMissingDataPrompt(e: ExtractionResult) returns (text: PromptText)
    ensures text == MissingDataPrompt(e)
  {
    var prompts: seq<Prompt> := [];
    if e.trajectory == [] {
      prompts := prompts + [TrajectoryPrompt];
    }
    if e.casing == [] {
      prompts := prompts + [CasingPrompt];
    }
    if prompts == [] {
      return AllExtracted;
    }
    return Ask(prompts);
  }

  /** The success message appears exactly when both lists are present; otherwise one prompt per
      missing list, the trajectory prompt first. */
  lemma MissingDataPromptSpec(e: ExtractionResult)
    ensures MissingDataPrompt(e) == AllExtracted <==> e.trajectory != [] && e.casing != []
    ensures MissingDataPrompt(e).Ask? ==>
              (TrajectoryPrompt in MissingDataPrompt(e).prompts <==> e.trajectory == []) &&
              (CasingPrompt in MissingDataPrompt(e).prompts <==> e.casing == []) &&
              MissingDataPrompt(e).prompts[0] == (if e.trajectory == [] then TrajectoryPrompt else CasingPrompt) &&
              |MissingDataPrompt(e).prompts| <= 2
  {
  }

  // ---------------------------------------------------------------- suggest_defaults

  /** The defaults dictionary: fluid_density (with its source, 'default (water)') and
      interpolation_needed (with the number of points named in its reason). */
  datatype Defaults = Defaults(fluidDensity: Option<real>, interpolationPoints: Option<nat>)

  method SuggestDefaults(e: ExtractionResult, c: AgentConfig) returns (defaults: Defaults)
    ensures defaults.fluidDensity.Some? <==> !e.hasFluidProperties
    ensures defaults.fluidDensity.Some? ==> defaults.fluidDensity.value == DefaultDensity(c)
    ensures defaults.interpolationPoints.Some? <==> 1 <= |e.trajectory| <= 4
    ensures defaults.interpolationPoints.Some? ==> defaults.interpolationPoints.value == |e.trajectory|
  {
    defaults := Defaults(None, None);
    if !e.hasFluidProperties {
      var density := if c.defaultFluidDensity.Some? then c.defaultFluidDensity.value else 1000.0;
      defaults := defaults.(fluidDensity := Some(density));
    }
    if e.trajectory != [] && |e.trajectory| < 5 {
      defaults := defaults.(interpolationPoints := Some(|e.trajectory|));
    }
  }
}

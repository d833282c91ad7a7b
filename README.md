# Geothermal well-report extraction core, in Dafny

This project models the part of the RAG_geothermal pipeline that sits between the regular
expressions and the final report. That part turns free-text well reports into structured well
data:

- the two unit-conversion utilities: fractional-inch parsing, and inch/metre, bar/psi and
  Celsius/Fahrenheit conversions with pressure and temperature normalisation;
- the candidate post-processing of `extraction_patterns`: the plausibility filter, the 0.95
  inner-diameter factor, deduplication by measured depth, sorting, and the keyword content
  gates;
- the newer parameter-extraction agent: chunk gating, the nearest-neighbour merge of casing
  depths onto the survey with a total-depth row, and the confidence score;
- the older extraction agent: table and named-field trajectory grammars, fractional and
  decimal casing with near-duplicate suppression, pressure and temperature context, the
  interval-lookup merge, and the `WellParameters` record filled chunk by chunk;
- the physics validators (`validation`, `validators`) and the validation agent's report,
  prompts and defaults;
- the preprocessing agent's word-window chunker, its page-marker detection and the
  three-strategy document loop.

Modules follow the source files one for one:

| module | file |
|---|---|
| UnitConversion | unit_conversion.dfy |
| UnitConverter | unit_converter.dfy |
| ExtractionPatterns | extraction_patterns.dfy |
| Validation | validation.dfy |
| Validators | validators.dfy |
| ParameterExtraction | parameter_extraction.dfy |
| ExtractionAgent | extraction_agent.dfy |
| ValidationAgent | validation_agent.dfy |
| Preprocessing | preprocessing.dfy |

Three supporting modules hold shared pieces:

- `Common` holds `Option`, `Result` and the raised errors.
- `Text` holds the Python string primitives the core relies on (`strip`, `split`,
  `lower`/`upper`, `replace`, `in`, `int()`, `float()`), over ASCII.
- `Ordering` holds the stable key sort, first-wins deduplication, flattening and the string
  order used by `sorted`.

Modelling conventions:

- Numbers are `real`.
- A dictionary with optional keys becomes a datatype with `Option` fields, where `None` means
  the key is absent.
- A raised exception becomes an `Err` of `Result`.
- A regular-expression search becomes its list of match groups, passed in as data.
- Loops the source writes as loops are methods whose contracts tie the result to a
  specification function.
- The lemmas state the promised properties about those functions.
- `WellParameters` is a class because `extract_from_chunks` fills it in place.
- `_merge_trajectory_casing` works on arrays because it sorts its argument lists in place.

Where the code and the behaviour documented for it disagree, the model follows the code:

- `extract_casing_data` records the first (top) depth of a written range, not the bottom.
- The three trajectory patterns of `extract_trajectory_data` are pooled rather than tried
  first-match-wins.
- `extract_casing_from_text` stores the first depth of a written range as the bottom and the
  second as the top, as its code does (see "## Findings").

## Model

| member | source | states |
|---|---|---|
| UnitConversion.CleanSize | utils/unit_conversion.py:23 | the cleaned size text contains no double or single quote |
| UnitConversion.FractionValueOf | utils/unit_conversion.py:32-35 | the fraction text "N/D" evaluates to N/D, or to a division error when D is 0 |
| UnitConversion.MixedValueOfNumbers | utils/unit_conversion.py:29-35 | the two words "W" and "N/D" give W + N/D, or a division error when D is 0 |
| UnitConversion.ParseMixedNumber | utils/unit_conversion.py:22-35 | "W N/D", with or without a closing inch mark, parses to W + N/D; a zero denominator raises the division error |
| UnitConversion.ParseBareFraction | utils/unit_conversion.py:36-41 | a bare fraction "N/D" parses to N/D; a zero denominator raises the division error |
| UnitConversion.ParseWholeNumber | utils/unit_conversion.py:43-44 | the numeral of a whole number n parses to n |
| UnitConversion.ParseWithoutBar | utils/unit_conversion.py:26-44 | text without '/' after cleaning is read by float() alone |
| UnitConversion.ParseTooManyWords | utils/unit_conversion.py:26-44 | a '/' inside more than two words falls through to float(), which raises |
| UnitConversion.ParseThirteenThreeEighths | utils/unit_conversion.py:11 | the documented example "13 3/8" parses to 13.375 |
| UnitConversion.InchesMetersRoundTrip | utils/unit_conversion.py:46-68 | inches to metres and metres to inches are inverse to each other, both ways round |
| UnitConversion.BarPsiRoundTrip | utils/unit_conversion.py:70-92 | bar to psi and psi to bar are inverse to each other, both ways round |
| UnitConversion.TemperatureRoundTrip | utils/unit_conversion.py:94-116 | Celsius to Fahrenheit and Fahrenheit to Celsius are inverse to each other, both ways round |
| UnitConversion.InchesToMetersLinear | utils/unit_conversion.py:56 | the inch-to-metre conversion is additive, homogeneous and strictly increasing (in both directions of the order) |
| UnitConversion.ThirteenThreeEighthsInMetres | utils/unit_conversion.py:56 | 13.375 inches convert to exactly 0.339725 m |
| UnitConverter.MixedInchesExample | utils/unit_converter.py:26 | the documented example 13 3/8 gives 13.375 |
| UnitConverter.MatchMixedOf | utils/unit_converter.py:39 | a text starting with digits, a blank, digits, '/', digits is matched with exactly those three numbers captured |
| UnitConverter.MatchMixedText | utils/unit_converter.py:39 | the text "W N/D" followed by anything but a digit is matched as (W, N, D) |
| UnitConverter.MatchBareFraction | utils/unit_converter.py:39 | a bare fraction "N/D" is not a match of the mixed-fraction pattern |
| UnitConverter.MatchDigitsSlash | utils/unit_converter.py:39 | a digit run followed directly by '/' is never a match, since the pattern needs a blank after the first number |
| UnitConverter.ParseMixed | utils/unit_converter.py:36-44 | "W N/D" parses to W + N/D; a zero denominator raises the division error |
| UnitConverter.ParseMatched | utils/unit_converter.py:36-44 | whenever the cleaned text matches the pattern, the result is W + N/D of the match, or the division error |
| UnitConverter.ParseMixedInchWord | utils/unit_converter.py:36-44 | a trailing " inch" is removed before matching, so "W N/D inch" also parses to W + N/D |
| UnitConverter.ParseBareFractionRejected | utils/unit_converter.py:36-50 | a bare fraction "N/D" is not matched and float() rejects it: a parse error |
| UnitConverter.ParseUnmatched | utils/unit_converter.py:46-50 | text that does not match the pattern is read by float() alone |
| UnitConverter.CleanInchUnchanged | utils/unit_converter.py:36 | text without edge whitespace, '"' or the letter i is left as it is by the cleaning |
| UnitConverter.ParseWhole | utils/unit_converter.py:46-48 | the numeral of a whole number n parses to n |
| UnitConverter.InchToMeterTextAgrees | utils/unit_converter.py:63-65 | a text converts exactly as the number it parses to |
| UnitConverter.InchToMeterTextError | utils/unit_converter.py:63-64 | a text that does not parse gives the parse error unchanged |
| UnitConverter.InchRoundTripApproximate | utils/unit_converter.py:13-14 | the inch factors are not reciprocal: inches to metres and back scales by 1.00000054, which changes every non-zero value, by at most one part in a million |
| UnitConverter.PressureRoundTripApproximate | utils/unit_converter.py:15-16 | the pressure factors are not reciprocal: bar to psi and back scales by 1.0000080024, within 1e-5 relative |
| UnitConverter.FeetRoundTripApproximate | utils/unit_converter.py:11-12 | feet to metres and back scales by 1.000000032 |
| UnitConverter.TemperatureRoundTrip | utils/unit_converter.py:102-110 | Celsius to Fahrenheit and back is exact both ways round; 0 °C is 32 °F and 100 °C is 212 °F |
| UnitConverter.NormalizePressureSpec | utils/unit_converter.py:124-135 | pressure normalisation succeeds exactly when the lower-cased, stripped unit is one of the eight accepted names |
| UnitConverter.PressureKeysSpec | utils/unit_converter.py:126-135 | on a unit key, the conversion succeeds exactly for the eight accepted names |
| UnitConverter.NormalizePressureInverts | utils/unit_converter.py:126-133 | normalising undoes the conversion from bar into kPa, MPa and bar; for psi it is off by the factor 1.0000080024 |
| UnitConverter.PressureKeysInvert | utils/unit_converter.py:126-133 | the same inverse facts stated on the unit keys themselves |
| UnitConverter.PressureKeys | utils/unit_converter.py:128-133 | the keys "psi", "kpa" and "mpa" select the psi, kPa and MPa conversions |
| UnitConverter.NormalizeTemperatureSpec | utils/unit_converter.py:149-156 | temperature normalisation succeeds exactly on the six accepted names; it undoes the Celsius-to-Fahrenheit conversion and leaves Celsius values alone |
| UnitConverter.TemperatureKeysSpec | utils/unit_converter.py:151-156 | on a unit key, the conversion succeeds exactly for the six accepted names |
| UnitConverter.TemperatureKeysInvert | utils/unit_converter.py:151-154 | the key "f" undoes the Fahrenheit conversion; "c" is the identity |
| UnitConverter.NormalizeIgnoresCase | utils/unit_converter.py:124 | both normalisations give the same result for a unit written in upper case |
| ExtractionPatterns.ExtractWellNames | utils/extraction_patterns.py:51-67 | the names are strictly sorted, so none is repeated, and they are exactly the strings matched by some well-name pattern |
| ExtractionPatterns.WellNamesDistinct | utils/extraction_patterns.py:61-67 | no well name is reported twice |
| ExtractionPatterns.WellNamesCanonical | utils/extraction_patterns.py:61-67 | the result depends only on which names were found, not on their order or multiplicity |
| ExtractionPatterns.ExtractTrajectoryData | utils/extraction_patterns.py:69-112 | the loops return the plausible rows of all patterns, pooled, with the first row kept per measured depth, sorted by measured depth |
| ExtractionPatterns.KeepPlausible | utils/extraction_patterns.py:85-99 | the inner loop appends exactly the plausible rows of one pattern's matches |
| ExtractionPatterns.TrajectoryPlausible | utils/extraction_patterns.py:91-92 | every reported row has md >= tvd and an inclination between 0 and 90 |
| ExtractionPatterns.TrajectoryIncreasing | utils/extraction_patterns.py:101-110 | measured depths strictly increase along the result |
| ExtractionPatterns.TrajectoryFirstKept | utils/extraction_patterns.py:101-107 | a row is reported exactly when it is the first plausible candidate with its measured depth |
| ExtractionPatterns.TrajectoryPooled | utils/extraction_patterns.py:81-97 | a plausible row found by any pattern has its measured depth in the result (patterns are pooled, not first-match-wins) |
| ExtractionPatterns.FractionalCandidates | utils/extraction_patterns.py:127-156 | the fractional loop's only failure is the division error |
| ExtractionPatterns.FractionalCandidatesZero | utils/extraction_patterns.py:133-136 | a zero denominator anywhere among the matches aborts the whole loop with the division error |
| ExtractionPatterns.FractionalCandidatesOk | utils/extraction_patterns.py:130-156 | without a zero denominator the fractional loop completes |
| ExtractionPatterns.CasingErrorIff | utils/extraction_patterns.py:114-192 | extract_casing_data raises exactly when some fractional match has a zero denominator, and then raises the division error |
| ExtractionPatterns.FractionalCandidatesContents | utils/extraction_patterns.py:130-154 | the fractional loop yields exactly one interval per match, at its first depth, with 95 % of W + N/D inches as inner diameter |
| ExtractionPatterns.DecimalCandidatesContents | utils/extraction_patterns.py:162-178 | the decimal loop yields exactly one interval per match, at its first depth, with 95 % of the size as inner diameter |
| ExtractionPatterns.CasingCandidateFrom | utils/extraction_patterns.py:124-180 | a candidate interval is one that some match of one of the patterns yields, and every match yields one |
| ExtractionPatterns.FractionalFrom | utils/extraction_patterns.py:127-156 | an interval of the fractional loop comes from a match of some fractional pattern, and conversely |
| ExtractionPatterns.DecimalFrom | utils/extraction_patterns.py:159-180 | an interval of the decimal loop comes from a match of some decimal pattern, and conversely |
| ExtractionPatterns.CasingDataIsDedup | utils/extraction_patterns.py:182-192 | the result is the candidates with repeated depths dropped (first kept), sorted by depth |
| ExtractionPatterns.CasingFromMatches | utils/extraction_patterns.py:124-192 | every reported interval comes from some match, at its top depth, with the 95 % inner diameter |
| ExtractionPatterns.CasingCoversMatches | utils/extraction_patterns.py:124-192 | the depth of every match is reported, by that match or by an earlier one at the same depth |
| ExtractionPatterns.CasingIncreasing | utils/extraction_patterns.py:182-190 | depths strictly increase along the result |
| ExtractionPatterns.CasingFirstKept | utils/extraction_patterns.py:182-188 | an interval is reported exactly when it is the first candidate at its depth |
| ExtractionPatterns.CasingDataSingle | utils/extraction_patterns.py:130-147 | a lone fractional match with one depth gives one interval at that depth |
| ExtractionPatterns.CasingThirteenThreeEighths | utils/extraction_patterns.py:132-147 | 13 3/8" casing to 1331 m gives one interval at 1331 m with inner diameter 0.32273875 m |
| ExtractionPatterns.ExtractCasingData | utils/extraction_patterns.py:114-192 | the loops return the deduplicated, sorted intervals, or the division error |
| ExtractionPatterns.ZeroAnywhere | utils/extraction_patterns.py:127-136 | a zero denominator in any match of any fractional pattern aborts the fractional loop |
| ExtractionPatterns.FractionalIntervals | utils/extraction_patterns.py:127-156 | the loop over the fractional patterns computes the fractional candidates of all their matches, or the error |
| ExtractionPatterns.FractionalPattern | utils/extraction_patterns.py:130-156 | the inner loop over one pattern's matches extends the intervals, or raises the division error when some match has denominator 0 |
| ExtractionPatterns.DecimalIntervals | utils/extraction_patterns.py:159-180 | the loop over the decimal patterns computes the decimal candidates of all their matches |
| ExtractionPatterns.DecimalPattern | utils/extraction_patterns.py:162-180 | the inner loop over one pattern's matches appends its intervals |
| ExtractionPatterns.KeywordCountPositive | utils/extraction_patterns.py:207 | the keyword count is positive exactly when some keyword occurs |
| ExtractionPatterns.KeywordCountTwo | utils/extraction_patterns.py:207 | the keyword count is at least two exactly when two different keywords of the list occur |
| ExtractionPatterns.TrajectoryContentIff | utils/extraction_patterns.py:194-212 | a text is trajectory content exactly when a trajectory pattern matches or two different table keywords occur in its lower-cased form |
| ExtractionPatterns.CasingContentIff | utils/extraction_patterns.py:214-232 | a text is casing content exactly when the fractional pattern matches or two different casing keywords occur |
| ExtractionPatterns.InclinationAloneIsTrajectory | utils/extraction_patterns.py:41-43 | "inclination" contains the keyword "inc", so that one word makes trajectory content |
| ExtractionPatterns.ProductionCasingIsCasing | utils/extraction_patterns.py:46-48 | "production" contains the keyword "od", so "production casing" alone is casing content |
| Validation.ValidatePipeDiameter | utils/validation.py:77-113 | the method reports no error exactly when the diameter in millimetres lies within the configured bounds, and otherwise the one error for the bound it breaks |
| Validation.PipeErrorsIff | utils/validation.py:103-113 | a pipe passes exactly when 1000 times its diameter lies in [min, max]; at most one error is reported, and "below minimum" is the one reported for a diameter too small |
| Validation.PipeDefaults | utils/validation.py:90-100 | with the default bounds of 50 and 1000 mm, 0.244 m passes, 0.01 m is below the minimum and 2.0 m exceeds the maximum |
| Validation.ValidateTrajectoryPoint | utils/validation.py:8-75 | the method returns the point's errors and is valid exactly when there are none |
| Validation.PointErrorsIff | utils/validation.py:37-75 | a point passes exactly when both depths are present, md >= tvd - tolerance, any inclination lies in [0, max] and any pipe diameter is in range |
| Validation.PointMissingDepths | utils/validation.py:37-43 | a point missing a depth reports exactly the missing depths and nothing else |
| Validation.PointDepthOrder | utils/validation.py:45-75 | with both depths present at most one error is reported, and it is "physically impossible" exactly when md < tvd - tolerance |
| Validation.PointExamples | utils/validation.py:21-66 | concrete default-config cases: a good point passes; tvd above md, a negative inclination, 95 degrees and a missing tvd each give their one error |
| Validation.ValidateFluidProperties | utils/validation.py:115-156 | fluid checks never invalidate; the warnings are exactly the list the code appends, the density warning (below, else above its range) before the viscosity warning outside [0.0001, 0.01] |
| Validation.FluidWarningsSpec | utils/validation.py:141-153 | each fluid warning appears exactly when its condition holds, at most two, no repeats, and the viscosity warning last |
| Validation.ValidateTrajectoryList | utils/validation.py:158-192 | the method returns the list's errors and is valid exactly when there are none |
| Validation.CheckPoints | utils/validation.py:179-182 | the loop reports each rejected point, by index, in order |
| Validation.CollectMds | utils/validation.py:185 | the comprehension keeps the measured depths of the points that have one, in order |
| Validation.CheckIncreasing | utils/validation.py:186-190 | the loop reports each adjacent pair of measured depths that does not increase |
| Validation.InvalidPointsEmpty | utils/validation.py:179-182 | no point is reported exactly when every point is acceptable |
| Validation.PointReportEmpty | utils/validation.py:180-182 | one point is reported exactly when it is not acceptable |
| Validation.SequenceErrorsEmpty | utils/validation.py:186-190 | no pair is reported exactly when adjacent measured depths strictly increase |
| Validation.AdjacentIncreasing | utils/validation.py:186-190 | adjacent increase gives increase between any two measured depths |
| Validation.TrajectoryValidIff | utils/validation.py:158-192 | a trajectory passes exactly when it has at least two points, every point is acceptable and its measured depths strictly increase in list order |
| Validation.TrajectorySinglePoint | utils/validation.py:175-176 | a one-point trajectory is always rejected as too short |
| Validation.SequenceErrorsExact | utils/validation.py:187-190 | an order error names index i with the two depths exactly when md[i] <= md[i-1] |
| Validation.MdValuesContents | utils/validation.py:185 | the measured-depth list holds exactly the mds the points carry, and lists them position by position when every point has one |
| Validators.ValidateTrajectoryPoint | utils/validators.py:27-86 | the result carries the point's errors, warnings and confidence, and is valid exactly when there are no errors |
| Validators.PointValidIff | utils/validators.py:48-68 | a point is valid exactly when md >= tvd, both depths lie in [0, 10000] and any inclination lies in [0, 90] |
| Validators.PointConfidenceRange | utils/validators.py:46-83 | the confidence stays in [0, 1], and is 0 whenever md < tvd |
| Validators.PointConfidenceByIssues | utils/validators.py:53-83 | for md >= tvd the confidence is 0.5 to the number of errors, times 0.9 for a vertical mismatch and 0.95 for a large deviation |
| Validators.PointExamples | utils/validators.py:48-68 | (1000, 995, 5 degrees) is valid with confidence 1; swapping the depths gives confidence 0; 15000/14000 m and 95 degrees are invalid |
| Validators.ValidateTrajectorySequence | utils/validators.py:88-144 | an empty list gives the one "empty" error and confidence 0; otherwise the errors and warnings are those of the points and of the adjacent pairs of the md-sorted list, valid exactly when there is no error, and the confidence is the fold of the two loops (minimum of the point confidences, ×0.8 per point missing a depth, then ×0.95 per non-increasing md and ×0.7 per decreasing tvd), at most every point's own, at most 0.8 if a depth is missing and at most 0.7 if tvd decreases |
| Validators.CheckEachPoint | utils/validators.py:112-126 | the point loop collects every point's errors and warnings in order, and its confidence is the running minimum of the point confidences scaled by 0.8 per point missing a depth, hence bounded by each point's and by 0.8 if a depth is missing |
| Validators.CheckSurveyPoint | utils/validators.py:114-126 | one point with both depths contributes the point validator's errors, warnings and confidence |
| Validators.CheckAdjacentPairs | utils/validators.py:128-141 | the pair loop reports every decreasing tvd as an error and every non-increasing md as a warning, and scales the confidence by 0.95 per md warning and 0.7 per tvd error, never raising it, and at most 0.7 after a decreasing tvd |
| Validators.MinConfBelow | utils/validators.py:126 | the running minimum is at most every point's confidence |
| Validators.PointPhaseConfAllPresent | utils/validators.py:112-126 | when every point has both depths, the point loop's confidence is the smallest point confidence |
| Validators.PairConfNoIssues | utils/validators.py:128-141 | with md strictly increasing and tvd never dropping, the pair loop leaves the confidence unchanged |
| Validators.SequenceConfClean | utils/validators.py:102-141 | a survey whose points all have depths, with md strictly increasing and tvd never dropping, is reported with the smallest point confidence |
| Validators.PairErrorsExact | utils/validators.py:139-141 | a pair error names index k exactly when tvd decreases from k-1 to k |
| Validators.PairWarningsExact | utils/validators.py:135-137 | a pair warning names index k exactly when md does not increase from k-1 to k |
| Validators.RepeatedMdOnlyWarns | utils/validators.py:110-137 | after the sort by md, a non-increasing md can only be a repeated md, and it is never an error |
| Validators.PointPhaseErrorsEmpty | utils/validators.py:113-126 | the point loop reports no error exactly when every point has both depths and passes |
| Validators.StepErrorsEmpty | utils/validators.py:118-124 | one point reports no error exactly when it has both depths and passes the point checks |
| Validators.PairErrorsEmpty | utils/validators.py:129-141 | the pair loop reports no error exactly when tvd never decreases |
| Validators.SequenceValidIff | utils/validators.py:110-144 | a sorted sequence is valid exactly when every point has both depths and passes and tvd never decreases; md ties do not matter |
| Validators.ValidateCasingDiameter | utils/validators.py:146-178 | valid exactly when the diameter lies in [0.05, 1.0]; the uncommon-size warning appears exactly when no common size is within 0.01; confidence 0.5 when out of range times 0.95 when uncommon |
| Validators.ThirteenThreeEighthsIsCommon | utils/validators.py:167-171 | 13 3/8" casing (0.33973 m) is in range and near a common size |
| Validators.ValidatePressure | utils/validators.py:180-208 | the errors are the negative-pressure error, then the reservoir error above 1000 bar; the wellhead warning appears exactly above 300 bar at the wellhead; the confidence is 0 for a negative pressure, else 1, times 0.5 for the reservoir error and 0.8 for the wellhead warning; valid exactly when the pressure is not negative and not a reservoir pressure above 1000 bar |
| Validators.ValidateTemperature | utils/validators.py:210-241 | valid exactly when the temperature lies in [0, 300], with the one range error otherwise; the warnings are the low warning below 50 followed by the high warning above 250; the confidence is 0.5 for the error times 0.9 per warning |
| ParameterExtraction.GatherSource | agents/parameter_extraction_agent.py:107-116 | every gathered row was extracted from a chunk that passed the gate |
| ParameterExtraction.GatherOrFailErrorIff | agents/parameter_extraction_agent.py:144-153 | gathering fails exactly when some chunk that passes the gate fails to extract, and then with the error of the first such chunk |
| ParameterExtraction.GatherOrFailSnoc | agents/parameter_extraction_agent.py:144-153 | one more chunk is skipped by the gate, raises its error, or appends its intervals |
| ParameterExtraction.GatherOrFailStops | agents/parameter_extraction_agent.py:152 | once a chunk raises, the chunks after it change nothing |
| ParameterExtraction.ExtractTrajectory | agents/parameter_extraction_agent.py:95-130 | the loops gather the rows of the gated chunks, keep the first row per measured depth and sort by measured depth |
| ParameterExtraction.TrajectoryFromChunksIncreasing | agents/parameter_extraction_agent.py:119-128 | measured depths strictly increase along the result |
| ParameterExtraction.TrajectoryFromChunksFirstKept | agents/parameter_extraction_agent.py:119-125 | a row is kept exactly when it is the first gathered row with its measured depth |
| ParameterExtraction.TrajectoryFromGatedChunks | agents/parameter_extraction_agent.py:107-116 | every kept row comes from a chunk that passed the gate and passed the extractor's plausibility filter |
| ParameterExtraction.RowsPlausible | agents/parameter_extraction_agent.py:115 | rows of the extractor are plausible |
| ParameterExtraction.ExtractCasing | agents/parameter_extraction_agent.py:132-167 | the casing list is the deduplicated, sorted intervals of the gated chunks, or the first chunk's division error |
| ParameterExtraction.GatherCasing | agents/parameter_extraction_agent.py:144-153 | the loop gathers the gated chunks' intervals, stopping at the first error |
| ParameterExtraction.CasingChunksErrorIff | agents/parameter_extraction_agent.py:144-153 | casing extraction fails exactly when a gated chunk holds a fractional match with a zero denominator, and then with the division error |
| ParameterExtraction.CasingFromChunksIncreasing | agents/parameter_extraction_agent.py:156-165 | depths strictly increase along the casing list |
| ParameterExtraction.Nearest | agents/parameter_extraction_agent.py:197 | min by distance returns an index of a nearest point, the first of equally near ones |
| ParameterExtraction.CasingRows | agents/parameter_extraction_agent.py:193-206 | one row per casing interval, each built from that interval |
| ParameterExtraction.Merged | agents/parameter_extraction_agent.py:169-222 | with both lists non-empty, the merge has one row per casing interval and at most one more |
| ParameterExtraction.MergeTrajectoryCasing | agents/parameter_extraction_agent.py:169-222 | the merge returns the merged rows; with both lists non-empty it leaves both arrays sorted by depth in place, and otherwise leaves them untouched |
| ParameterExtraction.BuildRows | agents/parameter_extraction_agent.py:193-220 | the loop and the total-depth step build the rows of the joined sorted lists |
| ParameterExtraction.RowsPerCasing | agents/parameter_extraction_agent.py:193-206 | the loop appends one row per casing interval |
| ParameterExtraction.SortedViews | agents/parameter_extraction_agent.py:189-190 | the sorted lists are sorted permutations of the inputs, and the merge is the join of them |
| ParameterExtraction.MergedEmptyIff | agents/parameter_extraction_agent.py:183-184 | the merge is empty exactly when one of the lists is empty |
| ParameterExtraction.MergedLength | agents/parameter_extraction_agent.py:209-220 | the merge has one row per casing interval, plus one exactly when the deepest survey point lies below the deepest casing top |
| ParameterExtraction.ReachesBelowLast | agents/parameter_extraction_agent.py:209-214 | the total-depth test compares the deepest survey point with the deepest casing top |
| ParameterExtraction.MergedCasingRow | agents/parameter_extraction_agent.py:193-206 | row k carries the depth and pipe of the k-th casing interval by depth and the tvd and inclination of a nearest survey point, the shallower of equally near ones |
| ParameterExtraction.JoinRow | agents/parameter_extraction_agent.py:193-206 | on a sorted trajectory each casing row sits beside a nearest survey point |
| ParameterExtraction.NearestOfSorted | agents/parameter_extraction_agent.py:197 | on a sorted trajectory the first nearest point has the smallest md among equally near ones |
| ParameterExtraction.MergedSorted | agents/parameter_extraction_agent.py:189-222 | the merged rows are sorted by depth |
| ParameterExtraction.JoinSorted | agents/parameter_extraction_agent.py:193-220 | rows over a sorted casing list, with the total-depth row last, are sorted by depth |
| ParameterExtraction.MergedTotalDepthRow | agents/parameter_extraction_agent.py:209-220 | the extra row is the deepest survey point with the pipe of the deepest casing interval |
| ParameterExtraction.JoinTotalDepthRow | agents/parameter_extraction_agent.py:209-220 | on sorted lists the extra row is the last survey point with the last casing pipe |
| ParameterExtraction.CalculateConfidence | agents/parameter_extraction_agent.py:224-257 | the method computes the additive score times the fraction of valid merged rows, capped at 1 |
| ParameterExtraction.CountValid | agents/parameter_extraction_agent.py:247-251 | the loop counts the merged rows that pass point validation |
| ParameterExtraction.ValidCountBounds | agents/parameter_extraction_agent.py:247-251 | the count is at most the number of rows, equal to it exactly when every row is valid and 0 exactly when none is |
| ParameterExtraction.ConfidenceRange | agents/parameter_extraction_agent.py:224-257 | the confidence lies in [0, 1] |
| ParameterExtraction.ConfidenceByValidity | agents/parameter_extraction_agent.py:234-257 | with every merged row valid the confidence is the additive score; with none valid it is 0 |
| ParameterExtraction.ExtractFromChunks | agents/parameter_extraction_agent.py:44-93 | the result fails exactly when casing extraction fails; otherwise it holds the extracted lists, their merge when both are non-empty, and the confidence |
| ParameterExtraction.Assemble | agents/parameter_extraction_agent.py:82-93 | the tail merges only when both lists are non-empty, then scores |
| ParameterExtraction.ExtractionMergedIff | agents/parameter_extraction_agent.py:82-91 | the merged list is non-empty exactly when both extracted lists are, and the confidence lies in [0, 1] |
| ParameterExtraction.ExtractedListsSorted | agents/parameter_extraction_agent.py:189-190 | the merge's in-place sort leaves the already sorted extracted lists unchanged |
| ExtractionAgent.ExtractTrajectoryFromText | agents/extraction_agent.py:66-140 | the method returns the accepted table rows when the chunk shows a table indicator and some row is accepted, and the named-field points otherwise |
| ExtractionAgent.TableRows | agents/extraction_agent.py:95-114 | the loop keeps exactly the accepted table rows, in order |
| ExtractionAgent.NamedFields | agents/extraction_agent.py:117-138 | the loop zips md and tvd values, with an inclination where one exists |
| ExtractionAgent.TablePointsFromRows | agents/extraction_agent.py:95-112 | a table point is reported exactly when some match passes the plausibility test |
| ExtractionAgent.TablePointsPlausible | agents/extraction_agent.py:103-111 | every table point has md >= tvd, md in [0, 10000], an inclination in [0, 90] and confidence 0.8 |
| ExtractionAgent.NamedPointsZip | agents/extraction_agent.py:127-138 | with unequal md and tvd counts no point is made; otherwise one point per md, paired by position, with the inclination only where one exists |
| ExtractionAgent.NamedPointsUnfiltered | agents/extraction_agent.py:103-138 | named points skip the plausibility filter: md 10 with tvd 20 is accepted there but not as a table row |
| ExtractionAgent.TrajectoryFallbackIff | agents/extraction_agent.py:88-138 | the table rows are used exactly when the indicator is present and some row is accepted, and the named fallback otherwise |
| ExtractionAgent.MdMentionIsTable | agents/extraction_agent.py:83-86 | any text whose upper-cased form contains "MD" counts as having a trajectory table |
| ExtractionAgent.IntervalAsWrittenInverted | agents/extraction_agent.py:171-172 | as written, a range given shallow end first yields a top below its bottom, which holds no depth |
| ExtractionAgent.IntervalCovers | agents/extraction_agent.py:171-172 | the corrected interval holds exactly the depths between surface and a single depth, or between the ends of a range in either order |
| ExtractionAgent.FractionalSections | agents/extraction_agent.py:162-181 | one section per fractional match, in order, with the first depth group as the bottom and the second as the top, or the division error when some denominator is 0 |
| ExtractionAgent.DecimalSections | agents/extraction_agent.py:187-209 | the decimal loop only appends to the existing sections, at most one per match, each read with the first depth group as the bottom |
| ExtractionAgent.ExtractCasingFromText | agents/extraction_agent.py:142-211 | the method returns the fractional sections followed by the non-duplicate decimal sections, with the depth groups read as the code reads them, or the division error |
| ExtractionAgent.AppendDecimal | agents/extraction_agent.py:187-209 | the loop appends each decimal section that is not a near duplicate, by diameter and as-written bottom depth, of one already kept |
| ExtractionAgent.AnyNearDuplicate | agents/extraction_agent.py:196-199 | the scan says whether some kept section is within 0.01 m of the diameter and 1 m of the bottom depth |
| ExtractionAgent.DecimalSectionsRepresent | agents/extraction_agent.py:195-207 | every decimal match ends up represented by a near duplicate in the result |
| ExtractionAgent.DecimalSectionsAdded | agents/extraction_agent.py:195-207 | every added section comes from a decimal match and is no near duplicate of an earlier section |
| ExtractionAgent.CasingFromTextSpec | agents/extraction_agent.py:142-211 | casing extraction fails exactly on a zero denominator; otherwise the fractional sections come first, one per match, as the code builds them |
| ExtractionAgent.ThirteenThreeEighthsDiameter | agents/extraction_agent.py:165-178 | 13 3/8" casing gives a section from surface with diameter 0.339725 m, with no inner-diameter reduction |
| ExtractionAgent.RangeStoredAsWritten | agents/extraction_agent.py:192-207 | a written range 500 - 1000 m is stored with top 1000 and bottom 500, so a later same-size section at 1000 m is no near duplicate and both are kept |
| ExtractionAgent.ExtractTemperatureSpec | agents/extraction_agent.py:246-270 | a temperature match fails exactly on a unit normalize_temperature does not know; no match gives None |
| ExtractionAgent.ExtractPressureSpec | agents/extraction_agent.py:213-244 | a pressure match fails exactly on a unit normalize_pressure does not know; no match gives None; a value in bar comes back unchanged with the context of the whole chunk |
| ExtractionAgent.MergeTrajectoryAndCasing | agents/extraction_agent.py:272-309 | the method returns one row per survey point, in order of md, each with the pipe of the first covering section by top depth |
| ExtractionAgent.BuildRows | agents/extraction_agent.py:293-307 | the loop appends one row per sorted survey point |
| ExtractionAgent.FindPipe | agents/extraction_agent.py:295-299 | the inner loop returns the diameter of the first section covering the depth, or None |
| ExtractionAgent.PipeAtFirst | agents/extraction_agent.py:296-299 | no pipe exactly when no section covers the depth; otherwise the pipe of the first covering section |
| ExtractionAgent.MergedRowsPoints | agents/extraction_agent.py:290-309 | row i carries the depth, tvd, inclination and azimuth of point i of the md-sorted survey, which is a permutation of the survey, so every point gives exactly one row and the rows are sorted by md |
| ExtractionAgent.MergedPipe | agents/extraction_agent.py:291-299 | a row has no pipe exactly when no casing section covers its depth; otherwise the pipe of a covering section with the shallowest top |
| ExtractionAgent.AsWrittenRangeLosesPipe | agents/extraction_agent.py:171-172 | read as written, a point inside a range casing finds no pipe; read as meant, it finds that section's diameter |
| ExtractionAgent.ChunkFailsIff | agents/extraction_agent.py:323-340 | one chunk raises exactly on a zero denominator or an unknown pressure or temperature unit |
| ExtractionAgent.ScanFails | agents/extraction_agent.py:323-340 | the chunk loop fails exactly when some chunk raises |
| ExtractionAgent.ScanLists | agents/extraction_agent.py:323-330 | the trajectory and casing lists are the chunks' lists concatenated in chunk order |
| ExtractionAgent.FirstPressureWins | agents/extraction_agent.py:332-335 | the reservoir pressure is the first pressure found in chunk order, whatever its context, and None when no chunk has one |
| ExtractionAgent.FirstTemperatureWins | agents/extraction_agent.py:337-340 | the reservoir temperature is the first non-zero temperature in chunk order, and None when there is none |
| ExtractionAgent.WellParameters.constructor | agents/extraction_agent.py:31-40 | a new record has no name, pressure or temperature and empty lists and map |
| ExtractionAgent.WellParameters.Absorb | agents/extraction_agent.py:325-340 | one loop pass extends both lists, fills the pressure and temperature only if still empty, and changes nothing else |
| ExtractionAgent.ReadChunk | agents/extraction_agent.py:325-338 | the four extractors run on one chunk and the first exception ends it |
| ExtractionAgent.ExtractFromChunks | agents/extraction_agent.py:311-350 | the extraction fails exactly when some chunk raises; otherwise a fresh record holds the scanned lists (casing sections with the depth groups read as the code reads them), pressure and temperature, and exactly one sequence validation of the trajectory when it is non-empty, with its errors, warnings and confidence those of the sequence validator over the md-sorted survey |
| ExtractionAgent.ScanChunks | agents/extraction_agent.py:321-340 | the chunk loop fills a fresh record with the scan of the chunks, or fails |
| ExtractionAgent.ScanStep | agents/extraction_agent.py:323-340 | one more chunk either fails the scan or is absorbed into it |
| ExtractionAgent.FailureSpreads | agents/extraction_agent.py:323-340 | a chunk that raises fails the whole scan |
| ValidationAgent.Tag | agents/validation_agent.py:70 | each list error is tagged once, so the tagged list is as long as the list's errors |
| ValidationAgent.ValidateExtraction | agents/validation_agent.py:39-131 | the method builds the report the validation defines: list errors, casing and coverage warnings, the confidence and the recommendations |
| ValidationAgent.MissingDataAdvice | agents/validation_agent.py:117-129 | the if/elif chain gives at most one missing-data recommendation |
| ValidationAgent.CheckList | agents/validation_agent.py:66-70 | a trajectory or merged list passes exactly when the list validator accepts it, and otherwise contributes its tagged errors |
| ValidationAgent.CheckCasing | agents/validation_agent.py:78-90 | the loop warns about each casing interval without a pipe or with a pipe outside the bounds |
| ValidationAgent.ValidityFromLists | agents/validation_agent.py:56-131 | the report is valid exactly when it has no errors, and exactly when the trajectory and merged lists are each empty or pass the list validator |
| ValidationAgent.ListPassesIff | agents/validation_agent.py:66-68 | a non-empty list passes exactly when it has at least two acceptable points with strictly increasing measured depths |
| ValidationAgent.ListErrorsEmpty | agents/validation_agent.py:66-70 | a list contributes no error exactly when it passes |
| ValidationAgent.CasingOnlyWarns | agents/validation_agent.py:76-93 | the casing list and the confidence never change validity or errors |
| ValidationAgent.CasingWarningsPerInterval | agents/validation_agent.py:78-90 | exactly one warning per bad casing interval, in interval order, and no other |
| ValidationAgent.WarningsSpec | agents/validation_agent.py:72-112 | "no trajectory" exactly when it is empty, "no casing" likewise, "not merged" exactly when both lists exist but the merge is empty, and "low confidence" exactly below the threshold |
| ValidationAgent.CasingWarningsIndexed | agents/validation_agent.py:78-90 | the casing loop emits only interval warnings |
| ValidationAgent.IndexedOnly | agents/validation_agent.py:78-90 | an interval-warning list holds no warning of another kind |
| ValidationAgent.RecommendationsSpec | agents/validation_agent.py:107-129 | manual review exactly below the threshold; "no well data", "missing trajectory" and "missing casing" each exactly in its case, and at most one of them |
| ValidationAgent.ValidateFluidProperties | agents/validation_agent.py:133-158 | the fluid report is always valid and its warnings are exactly the list of the utility, density warning before viscosity warning, each in its out-of-range case |
| ValidationAgent.GetMissingDataPrompt | agents/validation_agent.py:160-193 | the method returns the prompt the missing lists call for |
| ValidationAgent.MissingDataPromptSpec | agents/validation_agent.py:170-193 | "all extracted" exactly when both lists are present; otherwise one prompt per missing list, trajectory first |
| ValidationAgent.SuggestDefaults | agents/validation_agent.py:195-218 | a default density (configured, else 1000) exactly when the fluid properties key is absent; interpolation exactly for 1 to 4 survey points |
| Preprocessing.PageFromFirst | agents/preprocessing_agent.py:150-152 | the scan returns the page of the first marker at or after its start position |
| Preprocessing.PageFromNone | agents/preprocessing_agent.py:150-154 | a scan that meets no marker returns 0 |
| Preprocessing.FirstMarkerWins | agents/preprocessing_agent.py:139-152 | the leftmost "--- Page N ---" marker decides the page, whatever markers follow |
| Preprocessing.NoMarkerPageZero | agents/preprocessing_agent.py:154 | a chunk without a marker is page 0 |
| Preprocessing.MarkerRoundTrip | agents/preprocessing_agent.py:150-152 | the marker written for page n is read back as n at its position |
| Preprocessing.PageOfLeadingMarker | agents/preprocessing_agent.py:139-152 | a text that opens with the marker of page n is labelled page n |
| Preprocessing.WindowsFrom | agents/preprocessing_agent.py:106-135 | every window of the loop lies inside the word list, and there is none exactly when the start is past the last word |
| Preprocessing.WindowsShape | agents/preprocessing_agent.py:106-135 | the windows start at the given word, advance by size - overlap, hold at most size words with all but the last full, and with a non-negative overlap the last ends at the last word |
| Preprocessing.WindowsCover | agents/preprocessing_agent.py:106-135 | with a non-negative overlap every word lies in some window |
| Preprocessing.ChunkText | agents/preprocessing_agent.py:79-137 | the method returns the chunks of the text's word windows, numbered from 0 |
| Preprocessing.ChunkWords | agents/preprocessing_agent.py:103-135 | the window loop emits one chunk per window, in order, and stops after the window that reaches the last word |
| Preprocessing.ChunksOfAt | agents/preprocessing_agent.py:106-135 | chunk i is made from window i and carries id i |
| Preprocessing.ChunkTextContents | agents/preprocessing_agent.py:106-135 | each chunk's text splits back into exactly its window's words; it carries its position as id, 1 to size words as count, the page of its first marker, the strategy, the wells and the source and filename |
| Preprocessing.WindowChunk | agents/preprocessing_agent.py:109-110 | joining a window's words with spaces and splitting again gives the words back |
| Preprocessing.ChunkTextWindows | agents/preprocessing_agent.py:97-135 | there is one chunk per window, no chunk exactly when the text has no words, the first window starts at word 0 and, with a non-negative overlap, the windows reach the end and leave no word out |
| Preprocessing.ChunksSpan | agents/preprocessing_agent.py:99-135 | the same shape over a word list |
| Preprocessing.ChunkDocuments | agents/preprocessing_agent.py:30-77 | the result has exactly the three strategy keys, and each holds that strategy's chunks of all documents, document after document |
| Preprocessing.GatheredAll | agents/preprocessing_agent.py:51-77 | after the document loop each strategy's list holds the chunks of all documents |
| Preprocessing.ChunkDocument | agents/preprocessing_agent.py:57-71 | the strategy loop extends each strategy's list by that strategy's chunks of the document and keeps the keys |
| Preprocessing.ChunksByStrategyOfResult | agents/preprocessing_agent.py:156-168 | looking up one of the three strategies gives its chunks; any other name gives none |
| Preprocessing.AllChunksInOrder | agents/preprocessing_agent.py:51-71 | the chunks of the first documents are a prefix of the chunks of all of them |
| Preprocessing.ChunksTagged | agents/preprocessing_agent.py:106-135 | every chunk of one text carries the strategy name and between 1 and size words |
| Preprocessing.AllChunksTagged | agents/preprocessing_agent.py:51-71 | every chunk in a strategy's list carries that strategy and between 1 and its chunk size words |
| Text.TrimLeft | utils/unit_conversion.py:23 | the left strip removes exactly the leading whitespace |
| Text.TrimRight | utils/unit_conversion.py:23 | the right strip removes exactly the trailing whitespace |
| Text.Strip | utils/unit_conversion.py:23 | str.strip returns the middle of the string with no whitespace at either end, having dropped only whitespace |
| Text.StripNoEdgeSpace | utils/unit_converter.py:124 | a string without edge whitespace is left unchanged by strip |
| Text.RemoveChar | utils/unit_conversion.py:23 | replacing a character with "" leaves no occurrence of it and adds nothing |
| Text.RemoveCharAppend | utils/unit_conversion.py:23 | the removal works piece by piece over a concatenation |
| Text.RemoveWordAbsent | utils/unit_converter.py:36 | replacing a substring that does not occur leaves the string unchanged |
| Text.TakeWord | agents/preprocessing_agent.py:97 | the first word is the longest whitespace-free prefix |
| Text.SplitWordsClean | agents/preprocessing_agent.py:97 | str.split() yields only non-empty words without whitespace |
| Text.SplitJoin | agents/preprocessing_agent.py:109-110 | splitting words joined by single spaces gives the words back |
| Text.SplitWordsTwo | utils/unit_conversion.py:27 | "a b" splits into the two words a and b |
| Text.SplitOnTwo | utils/unit_conversion.py:32 | splitting "a/b" on "/" gives a and b |
| Text.Lower | utils/extraction_patterns.py:204 | str.lower maps each character, leaving no upper-case ASCII letter |
| Text.Upper | agents/extraction_agent.py:84 | str.upper maps each character, leaving no lower-case ASCII letter |
| Text.LowerOfUpper | utils/unit_converter.py:124 | lower-casing forgets any earlier upper-casing |
| Text.ContainsAt | utils/extraction_patterns.py:207 | the in test holds exactly when the substring occurs at some position |
| Text.DigitsValueShowNat | agents/preprocessing_agent.py:152 | int() reads back the decimal digits of any natural number |
| Text.ParseNat | utils/unit_conversion.py:31 | a natural number is read exactly from a non-empty string of digits |
| Text.ParseIntShowNat | utils/unit_conversion.py:31 | int() of the digits of n is n |
| Text.ParseFloatShowNat | utils/unit_conversion.py:44 | float() of the digits of n is n |
| Text.ParseFloatRejects | utils/unit_conversion.py:44 | float() rejects a string holding a character that is no digit, sign or point |
| Text.SlashRejected | utils/unit_conversion.py:44 | float() raises on any string containing "/" |
| Text.IntOrErr | utils/unit_conversion.py:31 | int() succeeds exactly when the string parses as an integer |
| Text.FloatOrErr | utils/unit_conversion.py:44 | float() succeeds exactly when the string parses as a decimal |
| Ordering.Insert | utils/extraction_patterns.py:110 | inserting into a sorted list keeps it sorted and adds exactly one element |
| Ordering.SortBy | utils/extraction_patterns.py:110 | list.sort by key returns a sorted permutation of the list |
| Ordering.SortByStable | utils/extraction_patterns.py:110 | the sort is stable: elements with equal keys keep their order |
| Ordering.SortBySorted | agents/parameter_extraction_agent.py:189-190 | sorting an already sorted list leaves it unchanged |
| Ordering.SortInPlace | agents/parameter_extraction_agent.py:189-190 | the in-place sort leaves the array holding the sorted list |
| Ordering.SortByIncreasing | utils/extraction_patterns.py:101-110 | sorting a list with distinct keys makes the keys strictly increase |
| Ordering.DedupBy | utils/extraction_patterns.py:101-107 | dedup by key keeps one element per key, all keys present, only elements of the input |
| Ordering.DedupByKeepsFirst | utils/extraction_patterns.py:101-107 | the first element with each key is kept |
| Ordering.DedupByOnlyFirst | utils/extraction_patterns.py:101-107 | only first elements of their key are kept |
| Ordering.Dedup | utils/extraction_patterns.py:101-107 | the seen-set loop computes the dedup |
| Ordering.SortDedupFirst | agents/parameter_extraction_agent.py:119-128 | after dedup and sort, an element is present exactly when it was the first with its key |
| Ordering.FlattenContents | agents/extraction_agent.py:323-330 | an element is in the concatenation exactly when it is in one of the parts |
| Ordering.Filter | utils/extraction_patterns.py:85-99 | the filter keeps exactly the elements that pass |
| Ordering.SortedNames | utils/extraction_patterns.py:61-67 | sorted(set(names)) is strictly sorted and holds exactly the names |
| Ordering.StrictlySortedUnique | utils/extraction_patterns.py:67 | two strictly sorted lists with the same elements are equal |
| Ordering.LexTotal | utils/extraction_patterns.py:67 | the string order is total |
| Ordering.LexTransitive | utils/extraction_patterns.py:67 | the string order is transitive |

## Left out

- The regular-expression engine. Every `re.findall`/`re.search` result is an input list of match groups. The numeric groups arrive as numbers, because `float()`/`int()` cannot fail on `\d+\.?\d*`, so the `except (ValueError, IndexError)` branches around them are not modelled. Two small patterns are written out as scanners: the mixed-fraction pattern of `parse_fractional_inch` and the `--- Page N ---` marker.
- Floating point. All arithmetic is exact over `real`, so exact-md deduplication is equality of reals and the 0.95 × 0.0254 factor is exact. Rounding effects of IEEE doubles are not modelled.
- `int()` and `float()` are modelled over ASCII: an optional sign and decimal digits with an optional point, surrounded by whitespace. Exponents, `inf`/`nan`, underscores and non-ASCII digits or whitespace are not modelled.
- `str.lower`, `str.upper`, `str.split` and `str.strip` are modelled over ASCII: letters for the case mappings, and for whitespace the ASCII characters Python counts as whitespace (blank, tab, line feed, carriage return, vertical tab, form feed and 0x1C to 0x1F). Unicode whitespace and case mappings are not modelled.
- Logging, the f-string message texts and the `config`/`patterns`/`use_regex_first` fields that nothing reads. Errors, warnings, recommendations and prompts are tagged values that carry the numbers their messages print, not the strings themselves.
- The sorting algorithm of `list.sort`/`sorted`. It is modelled by a stable insertion sort, whose result equals Python's for any key because a stable sort by key has a unique result.
- `ParameterExtractionAgent.extract_fluid_properties`. It returns the configured default density and nothing else, and it is not part of the modelled core.
- The ingestion, retrieval and command-line layers (PDF reading, the vector store, `main.py`). These are I/O and foreign libraries.
- The high-inclination branch of `validate_trajectory_point` in `utils/validation.py` only logs. It is modelled as having no effect.
- Preprocessing.ChunkText: requires a chunk size above zero, and for a text longer than one chunk an overlap below the chunk size. The excluded inputs behave as follows. With a positive chunk size and an overlap at least as large, or a zero chunk size and a non-negative overlap, the Python loop never ends. With a zero chunk size and a negative overlap it emits empty chunks (word count 0), advancing by the negated overlap, until it passes the last word. With a negative chunk size the slice ends before it starts, and Python's negative indexing can apply. None of these are modelled.
- Preprocessing.WindowsShape: a negative overlap makes the windows skip words. The last window may then fall short of the last word, so the end and coverage facts are stated for a non-negative overlap only.
- Preprocessing.ChunkDocuments: requires every document to meet the termination condition above, for every strategy.
- Content gates in the parameter-extraction agent: the lemmas about gathering chunks are stated for any gate. The methods use the keyword gates, so the keyword lists themselves appear only in ExtractionPatterns.
- ExtractionAgent: the `context` returned by `extract_pressure` is read and then discarded by `extract_from_chunks`. The model keeps only the value in bar.
- The `'\n\n'.join` of the missing-data prompts. The model returns the list of prompts.

## Findings

| source | as written | input that shows it | evidently intended | confidence | as-written member | corrected member |
|---|---|---|---|---|---|---|
| agents/extraction_agent.py:171-172 | the first depth group of the fractional casing pattern becomes `bottom_depth` and the second, when a range is written, becomes `top_depth` | `13 3/8" casing to 500 - 1000 m` gives top 1000, bottom 500, so no survey point lies inside the section and the merge gives it no pipe | the section spans 500 to 1000 m (and surface to the depth when no range is written) | not executed | ExtractionAgent.IntervalAsWrittenInverted | ExtractionAgent.IntervalCovers |
| agents/extraction_agent.py:192-193 | the decimal casing pattern reads its depth groups the same inverted way | `9.625" casing to 500 - 1000 m` gives top 1000, bottom 500 | the section spans 500 to 1000 m | not executed | ExtractionAgent.AsWrittenRangeLosesPipe | ExtractionAgent.IntervalCovers |

Both casing loops in the model build their sections with `ExtractionAgent.IntervalAsWritten`, as
the code does, so extraction, near-duplicate suppression and the merge all keep the inverted
ranges. The corrected reading is `ExtractionAgent.Interval`. The two lemmas named above
show that it leaves a point inside the written range without a pipe, while the corrected interval
finds the pipe.

/** utils/extraction_patterns.py: what the pattern-based extractor does with the regular
    expressions' match groups. The regular expressions themselves are not modelled: each
    operation receives, per pattern and in pattern order, the list `re.findall` returns, with the
    numeric groups already read as numbers. */
module ExtractionPatterns {
  import opened Common
  import opened Text
  import opened Ordering
  import UnitConversion

  // ---------------------------------------------------------------- extract_well_names

  /** The distinct matches of all well-name patterns, in Python's string order. */
  function ExtractWellNames(matches: seq<seq<string>>): (names: seq<string>)
    ensures StrictlySorted(names)
    ensures forall y :: y in names <==>
              exists k, j :: 0 <= k < |matches| && 0 <= j < |matches[k]| && matches[k][j] == y
  {
    FlattenContents(matches);
    SortedNames(Flatten(matches))
  }

  /** No well name is reported twice. */
  lemma WellNamesDistinct(matches: seq<seq<string>>, i: int, j: int)
    requires 0 <= i < j < |ExtractWellNames(matches)|
    ensures ExtractWellNames(matches)[i] != ExtractWellNames(matches)[j]
  {
    var names := ExtractWellNames(matches);
    if names[i] == names[j] {
      LexIrreflexive(names[i]);
    }
  }

  /** The result depends only on which names were found, not on their order, their
      multiplicity or the pattern that found them. */
  lemma WellNamesCanonical(m1: seq<seq<string>>, m2: seq<seq<string>>)
    requires forall y :: y in Flatten(m1) <==> y in Flatten(m2)
    ensures ExtractWellNames(m1) == ExtractWellNames(m2)
  {
    StrictlySortedUnique(ExtractWellNames(m1), ExtractWellNames(m2));
  }

  // ---------------------------------------------------------------- extract_trajectory_data

  /** One survey row: the three groups (md, tvd, inclination) of a trajectory match. */
  datatype TrajPoint = TrajPoint(md: real, tvd: real, inc: real)

  function Md(p: TrajPoint): real { p.md }

  /** The basic validation a row must pass: it is not deeper vertically than along hole and
      its inclination lies in [0, 90]. */
  predicate Plausible(p: TrajPoint) { p.md >= p.tvd && 0.0 <= p.inc <= 90.0 }

  /** The plausible rows of all patterns, pooled in pattern order. */
  function TrajectoryCandidates(matches: seq<seq<TrajPoint>>): seq<TrajPoint>
  {
    Filter(Flatten(matches), Plausible)
  }

  /** What extract_trajectory_data returns: one row per measured depth, sorted by it. */
  function TrajectoryData(matches: seq<seq<TrajPoint>>): seq<TrajPoint>
  {
    SortBy(DedupBy(TrajectoryCandidates(matches), Md), Md)
  }

  method ExtractTrajectoryData(matches: seq<seq<TrajPoint>>) returns (points: seq<TrajPoint>)
    ensures points == TrajectoryData(matches)
  {
    var candidates: seq<TrajPoint> := [];
    var i := 0;
    while i < |matches|
      invariant 0 <= i <= |matches|
      invariant candidates == Filter(Flatten(matches[..i]), Plausible)
    {
      candidates := KeepPlausible(Flatten(matches[..i]), matches[i], candidates);
      FlattenPrefix(matches, i);
      i := i + 1;
    }
    assert matches[..|matches|] == matches;
    var unique := Dedup(candidates, Md);
    points := SortBy(unique, Md);
  }

  lemma PlausibleStep(before: seq<TrajPoint>, ms: seq<TrajPoint>, j: nat)
    requires j < |ms|
    ensures Filter(before + ms[..j + 1], Plausible)
         == Filter(before + ms[..j], Plausible) + if Plausible(ms[j]) then [ms[j]] else []
  {
    PrefixStep(before, ms, j);
    FilterSnoc(before + ms[..j], ms[j], Plausible);
  }

  /** The inner loop over one pattern's matches, appending the plausible rows. */
  method KeepPlausible(ghost before: seq<TrajPoint>, ms: seq<TrajPoint>, candidates0: seq<TrajPoint>)
    returns (candidates: seq<TrajPoint>)
    requires candidates0 == Filter(before, Plausible)
    ensures candidates == Filter(before + ms, Plausible)
  {
    candidates := candidates0;
    assert before + ms[..0] == before;
    var j := 0;
    while j < |ms|
      invariant 0 <= j <= |ms|
      invariant candidates == Filter(before + ms[..j], Plausible)
    {
      var m := ms[j];
      PlausibleStep(before, ms, j);
      if m.md >= m.tvd && 0.0 <= m.inc <= 90.0 {
        candidates := candidates + [m];
      }
      j := j + 1;
    }
    assert ms[..|ms|] == ms;
  }

  /** Every reported row passed the basic validation; in particular a row whose true vertical
      depth exceeds its measured depth is never reported. */
  lemma TrajectoryPlausible(matches: seq<seq<TrajPoint>>)
    ensures forall i :: 0 <= i < |TrajectoryData(matches)| ==>
              TrajectoryData(matches)[i].md >= TrajectoryData(matches)[i].tvd &&
              0.0 <= TrajectoryData(matches)[i].inc <= 90.0
  {
    var c := TrajectoryCandidates(matches);
    forall i | 0 <= i < |TrajectoryData(matches)|
      ensures Plausible(TrajectoryData(matches)[i])
    {
      var p := TrajectoryData(matches)[i];
      assert p in DedupBy(c, Md);
      assert p in c;
    }
  }

  /** Measured depths strictly increase along the result. */
  lemma TrajectoryIncreasing(matches: seq<seq<TrajPoint>>)
    ensures IncreasingBy(TrajectoryData(matches), Md)
  {
    SortByIncreasing(DedupBy(TrajectoryCandidates(matches), Md), Md);
  }

  /** The rows kept are exactly the first plausible row seen for each measured depth. */
  lemma TrajectoryFirstKept(matches: seq<seq<TrajPoint>>, p: TrajPoint)
    ensures p in TrajectoryData(matches) <==>
              exists i :: FirstOfKey(TrajectoryCandidates(matches), Md, i) &&
                          TrajectoryCandidates(matches)[i] == p
  {
    var c := TrajectoryCandidates(matches);
    if p in TrajectoryData(matches) {
      DedupByOnlyFirst(c, Md, p);
    }
    if i :| FirstOfKey(c, Md, i) && c[i] == p {
      DedupByKeepsFirst(c, Md, i);
    }
  }

  /** The patterns are pooled: a plausible row found by ANY pattern has its measured depth in
      the result, even when an earlier pattern matched other rows. */
  lemma TrajectoryPooled(matches: seq<seq<TrajPoint>>, k: int, j: int)
    requires 0 <= k < |matches| && 0 <= j < |matches[k]| && Plausible(matches[k][j])
    ensures exists i :: 0 <= i < |TrajectoryData(matches)| &&
                        TrajectoryData(matches)[i].md == matches[k][j].md
  {
    var c := TrajectoryCandidates(matches);
    var p := matches[k][j];
    FlattenMember(matches, k, j);
    assert p in c;
    assert p.md in KeysOf(c, Md);
    var d := DedupBy(c, Md);
    assert p.md in KeysOf(d, Md);
    var q :| q in d && q.md == p.md;
    var r := TrajectoryData(matches);
    assert q in r;
    var i :| 0 <= i < |r| && r[i] == q;
  }

  // ---------------------------------------------------------------- extract_casing_data

  /** A fractional-size match "W N/D" casing ... depth(s): the whole, numerator and
      denominator groups and the one or two depth groups that follow. */
  datatype FractionalMatch = FractionalMatch(whole: nat, numerator: nat, denominator: nat,
                                             depths: seq<real>)

  /** A decimal-size match: the size group and the one or two depth groups. */
  datatype DecimalMatch = DecimalMatch(size: real, depths: seq<real>)

  /** A casing interval as this extractor reports it: a depth and an inner diameter (m). */
  datatype CasingPoint = CasingPoint(md: real, pipeId: real)

  function CasingMd(c: CasingPoint): real { c.md }

  /** The inner diameter in metres of a pipe of the given nominal size in inches, taken as
      95 % of it. */
  function PipeId(sizeInches: real): real
  {
    UnitConversion.InchesToMeters(sizeInches * 0.95)
  }

  /** A match with one depth group, or with a range of two, gives one interval at the first
      (top) depth; a match of any other shape gives none. */
  function DepthCandidate(depths: seq<real>, pipeId: real): seq<CasingPoint>
  {
    if |depths| == 1 || |depths| == 2 then [CasingPoint(depths[0], pipeId)] else []
  }

  /** Some fractional match has a zero denominator: the division raises before anything
      else happens to that match, and the exception is not among those caught. */
  predicate DividesByZero(frac: seq<seq<FractionalMatch>>)
  {
    exists k, j :: 0 <= k < |frac| && 0 <= j < |frac[k]| && frac[k][j].denominator == 0
  }

  function FractionalSize(m: FractionalMatch): real
    requires m.denominator != 0
  {
    m.whole as real + m.numerator as real / m.denominator as real
  }

  /** The loop over the fractional matches: their intervals, or the division error of the
      first match with a zero denominator. */
  function FractionalCandidates(ms: seq<FractionalMatch>): (r: Result<seq<CasingPoint>>)
    ensures r.Err? ==> r.error == ZeroDivision
  {
    if ms == [] then Ok([])
    else
      var r := FractionalCandidates(ms[..|ms| - 1]);
      var m := ms[|ms| - 1];
      if r.Err? then r
      else if m.denominator == 0 then Err(ZeroDivision)
      else Ok(r.value + DepthCandidate(m.depths, PipeId(FractionalSize(m))))
  }

  function DecimalCandidates(ms: seq<DecimalMatch>): seq<CasingPoint>
  {
    if ms == [] then []
    else
      var m := ms[|ms| - 1];
      DecimalCandidates(ms[..|ms| - 1]) + DepthCandidate(m.depths, PipeId(m.size))
  }

  /** What extract_casing_data returns, or the division error it raises: the intervals of the
      fractional patterns and then of the decimal patterns, one per depth, sorted by depth. */
  function CasingData(frac: seq<seq<FractionalMatch>>, dec: seq<seq<DecimalMatch>>)
    : Result<seq<CasingPoint>>
  {
    var f := FractionalCandidates(Flatten(frac));
    if f.Err? then Err(f.error)
    else Ok(SortBy(DedupBy(f.value + DecimalCandidates(Flatten(dec)), CasingMd), CasingMd))
  }

  lemma FractionalCandidatesSnoc(ms: seq<FractionalMatch>, m: FractionalMatch)
    ensures FractionalCandidates(ms + [m])
         == var r := FractionalCandidates(ms);
            if r.Err? then r
            else if m.denominator == 0 then Err(ZeroDivision)
            else Ok(r.value + DepthCandidate(m.depths, PipeId(FractionalSize(m))))
  {
    assert (ms + [m])[..|ms|] == ms;
  }

  /** A zero denominator anywhere among the matches aborts the whole loop. */
  lemma {:induction false} FractionalCandidatesZero(ms: seq<FractionalMatch>, i: int)
    requires 0 <= i < |ms| && ms[i].denominator == 0
    ensures FractionalCandidates(ms) == Err(ZeroDivision)
    decreases |ms|
  {
    if i < |ms| - 1 {
      FractionalCandidatesZero(ms[..|ms| - 1], i);
    }
  }

  /** Without a zero denominator the loop completes. */
  lemma {:induction false} FractionalCandidatesOk(ms: seq<FractionalMatch>)
    requires forall i :: 0 <= i < |ms| ==> ms[i].denominator != 0
    ensures FractionalCandidates(ms).Ok?
    decreases |ms|
  {
    if ms != [] {
      FractionalCandidatesOk(ms[..|ms| - 1]);
    }
  }

  /** The extraction fails exactly when some fractional match, of either pattern and whatever
      its depth groups, has a zero denominator; the failure is the division error. */
  lemma CasingErrorIff(frac: seq<seq<FractionalMatch>>, dec: seq<seq<DecimalMatch>>)
    ensures CasingData(frac, dec).Err? <==> DividesByZero(frac)
    ensures CasingData(frac, dec).Err? ==> CasingData(frac, dec).error == ZeroDivision
  {
    var ms := Flatten(frac);
    if DividesByZero(frac) {
      var k, j :| 0 <= k < |frac| && 0 <= j < |frac[k]| && frac[k][j].denominator == 0;
      FlattenMember(frac, k, j);
      var i :| 0 <= i < |ms| && ms[i] == frac[k][j];
      FractionalCandidatesZero(ms, i);
    } else {
      forall i | 0 <= i < |ms| ensures ms[i].denominator != 0 {
        var k, j := FlattenSource(frac, ms[i]);
      }
      FractionalCandidatesOk(ms);
    }
  }

  lemma DecimalCandidatesSnoc(ms: seq<DecimalMatch>, m: DecimalMatch)
    ensures DecimalCandidates(ms + [m]) == DecimalCandidates(ms) + DepthCandidate(m.depths, PipeId(m.size))
  {
    assert (ms + [m])[..|ms|] == ms;
  }

  /** c is the interval a fractional match yields: at the match's first depth, with an inner
      diameter of 95 % of W + N/D inches, 0.0254 m to the inch. */
  predicate FromFractional(c: CasingPoint, m: FractionalMatch)
  {
    m.denominator != 0 && (|m.depths| == 1 || |m.depths| == 2) && c.md == m.depths[0] &&
    c.pipeId == (m.whole as real + m.numerator as real / m.denominator as real) * 0.95 * 0.0254
  }

  /** c is the interval a decimal match yields. */
  predicate FromDecimal(c: CasingPoint, m: DecimalMatch)
  {
    (|m.depths| == 1 || |m.depths| == 2) && c.md == m.depths[0] && c.pipeId == m.size * 0.95 * 0.0254
  }

  /** The fractional loop yields exactly one interval per well-formed match. */
  lemma {:induction false} FractionalCandidatesContents(ms: seq<FractionalMatch>, c: CasingPoint)
    requires FractionalCandidates(ms).Ok?
    ensures c in FractionalCandidates(ms).value <==> exists i :: 0 <= i < |ms| && FromFractional(c, ms[i])
    decreases |ms|
  {
    if ms != [] {
      var p, m := ms[..|ms| - 1], ms[|ms| - 1];
      FractionalCandidatesContents(p, c);
      var d := DepthCandidate(m.depths, PipeId(FractionalSize(m)));
      assert FractionalCandidates(ms).value == FractionalCandidates(p).value + d;
      assert c in d <==> FromFractional(c, m);
      if i :| 0 <= i < |ms| && FromFractional(c, ms[i]) {
        if i < |p| {
          assert FromFractional(c, p[i]);
        }
      }
      if i :| 0 <= i < |p| && FromFractional(c, p[i]) {
        assert FromFractional(c, ms[i]);
      }
    }
  }

  /** The decimal loop yields exactly one interval per well-formed match. */
  lemma {:induction false} DecimalCandidatesContents(ms: seq<DecimalMatch>, c: CasingPoint)
    ensures c in DecimalCandidates(ms) <==> exists i :: 0 <= i < |ms| && FromDecimal(c, ms[i])
    decreases |ms|
  {
    if ms != [] {
      var p, m := ms[..|ms| - 1], ms[|ms| - 1];
      DecimalCandidatesContents(p, c);
      var d := DepthCandidate(m.depths, PipeId(m.size));
      assert DecimalCandidates(ms) == DecimalCandidates(p) + d;
      assert c in d <==> FromDecimal(c, m);
      if i :| 0 <= i < |ms| && FromDecimal(c, ms[i]) {
        if i < |p| {
          assert FromDecimal(c, p[i]);
        }
      }
      if i :| 0 <= i < |p| && FromDecimal(c, p[i]) {
        assert FromDecimal(c, ms[i]);
      }
    }
  }

  /** The candidate intervals, in the order they were appended. */
  function CasingCandidates(frac: seq<seq<FractionalMatch>>, dec: seq<seq<DecimalMatch>>)
    : seq<CasingPoint>
    requires CasingData(frac, dec).Ok?
  {
    FractionalCandidates(Flatten(frac)).value + DecimalCandidates(Flatten(dec))
  }

  /** A candidate interval comes from one match of one of the patterns, with an inner diameter
      of 95 % of the matched size and the top depth of the matched range. */
  lemma CasingCandidateFrom(frac: seq<seq<FractionalMatch>>, dec: seq<seq<DecimalMatch>>, c: CasingPoint)
    requires CasingData(frac, dec).Ok?
    ensures c in CasingCandidates(frac, dec) <==>
              (exists k, j :: 0 <= k < |frac| && 0 <= j < |frac[k]| && FromFractional(c, frac[k][j])) ||
              (exists k, j :: 0 <= k < |dec| && 0 <= j < |dec[k]| && FromDecimal(c, dec[k][j]))
  {
    FractionalFrom(frac, c);
    DecimalFrom(dec, c);
  }

  /** An interval of the fractional loop comes from one fractional match of some pattern. */
  lemma FractionalFrom(frac: seq<seq<FractionalMatch>>, c: CasingPoint)
    requires FractionalCandidates(Flatten(frac)).Ok?
    ensures c in FractionalCandidates(Flatten(frac)).value <==>
              exists k, j :: 0 <= k < |frac| && 0 <= j < |frac[k]| && FromFractional(c, frac[k][j])
  {
    var fm := Flatten(frac);
    FractionalCandidatesContents(fm, c);
    if i :| 0 <= i < |fm| && FromFractional(c, fm[i]) {
      var k, j := FlattenSource(frac, fm[i]);
    }
    if k, j :| 0 <= k < |frac| && 0 <= j < |frac[k]| && FromFractional(c, frac[k][j]) {
      FlattenMember(frac, k, j);
      var i :| 0 <= i < |fm| && fm[i] == frac[k][j];
    }
  }

  /** An interval of the decimal loop comes from one decimal match of some pattern. */
  lemma DecimalFrom(dec: seq<seq<DecimalMatch>>, c: CasingPoint)
    ensures c in DecimalCandidates(Flatten(dec)) <==>
              exists k, j :: 0 <= k < |dec| && 0 <= j < |dec[k]| && FromDecimal(c, dec[k][j])
  {
    var dm := Flatten(dec);
    DecimalCandidatesContents(dm, c);
    if i :| 0 <= i < |dm| && FromDecimal(c, dm[i]) {
      var k, j := FlattenSource(dec, dm[i]);
    }
    if k, j :| 0 <= k < |dec| && 0 <= j < |dec[k]| && FromDecimal(c, dec[k][j]) {
      FlattenMember(dec, k, j);
      var i :| 0 <= i < |dm| && dm[i] == dec[k][j];
    }
  }

  lemma CasingDataIsDedup(frac: seq<seq<FractionalMatch>>, dec: seq<seq<DecimalMatch>>)
    requires CasingData(frac, dec).Ok?
    ensures CasingData(frac, dec).value
         == SortBy(DedupBy(CasingCandidates(frac, dec), CasingMd), CasingMd)
  {
  }

  /** Every reported interval comes from a match, at its top depth, with pipe_id equal to the
      matched size times 0.95 times 0.0254. */
  lemma CasingFromMatches(frac: seq<seq<FractionalMatch>>, dec: seq<seq<DecimalMatch>>, c: CasingPoint)
    requires CasingData(frac, dec).Ok? && c in CasingData(frac, dec).value
    ensures (exists k, j :: 0 <= k < |frac| && 0 <= j < |frac[k]| && FromFractional(c, frac[k][j])) ||
            (exists k, j :: 0 <= k < |dec| && 0 <= j < |dec[k]| && FromDecimal(c, dec[k][j]))
  {
    CasingDataIsDedup(frac, dec);
    assert c in DedupBy(CasingCandidates(frac, dec), CasingMd);
    CasingCandidateFrom(frac, dec, c);
  }

  /** Every well-formed match has its top depth reported (by itself or by an earlier match at
      the same depth). */
  lemma CasingCoversMatches(frac: seq<seq<FractionalMatch>>, dec: seq<seq<DecimalMatch>>, c: CasingPoint)
    requires CasingData(frac, dec).Ok?
    requires (exists k, j :: 0 <= k < |frac| && 0 <= j < |frac[k]| && FromFractional(c, frac[k][j])) ||
             (exists k, j :: 0 <= k < |dec| && 0 <= j < |dec[k]| && FromDecimal(c, dec[k][j]))
    ensures exists i :: 0 <= i < |CasingData(frac, dec).value| && CasingData(frac, dec).value[i].md == c.md
  {
    CasingCandidateFrom(frac, dec, c);
    CasingDataIsDedup(frac, dec);
    SortDedupKeepsKey(CasingCandidates(frac, dec), CasingMd, c);
  }

  /** Depths strictly increase along the result. */
  lemma CasingIncreasing(frac: seq<seq<FractionalMatch>>, dec: seq<seq<DecimalMatch>>)
    requires CasingData(frac, dec).Ok?
    ensures IncreasingBy(CasingData(frac, dec).value, CasingMd)
  {
    CasingDataIsDedup(frac, dec);
    SortByIncreasing(DedupBy(CasingCandidates(frac, dec), CasingMd), CasingMd);
  }

  /** The intervals kept are exactly the first candidate seen at each depth. */
  lemma CasingFirstKept(frac: seq<seq<FractionalMatch>>, dec: seq<seq<DecimalMatch>>, c: CasingPoint)
    requires CasingData(frac, dec).Ok?
    ensures c in CasingData(frac, dec).value <==>
              exists i :: FirstOfKey(CasingCandidates(frac, dec), CasingMd, i) &&
                          CasingCandidates(frac, dec)[i] == c
  {
    var cs := CasingCandidates(frac, dec);
    CasingDataIsDedup(frac, dec);
    if c in CasingData(frac, dec).value {
      DedupByOnlyFirst(cs, CasingMd, c);
    }
    if i :| FirstOfKey(cs, CasingMd, i) && cs[i] == c {
      DedupByKeepsFirst(cs, CasingMd, i);
    }
  }

  /** A lone fractional match with one depth gives one interval. */
  lemma CasingDataSingle(m: FractionalMatch)
    requires m.denominator != 0 && |m.depths| == 1
    ensures CasingData([[m]], []) == Ok([CasingPoint(m.depths[0], PipeId(FractionalSize(m)))])
  {
    FlattenSnoc([], [m]);
    assert [[m]] == [] + [[m]];
    FractionalCandidatesSnoc([], m);
    assert [] + [m] == [m];
    var c := CasingPoint(m.depths[0], PipeId(FractionalSize(m)));
    assert DepthCandidate(m.depths, PipeId(FractionalSize(m))) == [c];
    assert FractionalCandidates([]) == Ok([]);
    assert [] + [c] == [c];
    assert FractionalCandidates([m]) == Ok([c]);
    assert DedupBy([c], CasingMd) == [c] by {
      assert [c][..0] == [];
    }
    SortBySorted([c], CasingMd);
  }

  /** 13 3/8" casing to 1331 m: one interval at 1331 m of inner diameter 0.32273875 m. */
  lemma CasingThirteenThreeEighths(m: FractionalMatch)
    requires m == FractionalMatch(13, 3, 8, [1331.0])
    ensures CasingData([[m]], []) == Ok([CasingPoint(1331.0, 0.32273875)])
  {
    CasingDataSingle(m);
    assert FractionalSize(m) == 13.375;
  }

  method ExtractCasingData(frac: seq<seq<FractionalMatch>>, dec: seq<seq<DecimalMatch>>)
    returns (r: Result<seq<CasingPoint>>)
    ensures r == CasingData(frac, dec)
  {
    var fractional := FractionalIntervals(frac);
    if fractional.Err? {
      return Err(fractional.error);
    }
    var decimal := DecimalIntervals(dec);
    var unique := Dedup(fractional.value + decimal, CasingMd);
    r := Ok(SortBy(unique, CasingMd));
  }

  /** A zero denominator in any match of any pattern aborts the fractional loop. */
  lemma ZeroAnywhere(frac: seq<seq<FractionalMatch>>, i: nat, j: nat)
    requires i < |frac| && j < |frac[i]| && frac[i][j].denominator == 0
    ensures FractionalCandidates(Flatten(frac)) == Err(ZeroDivision)
  {
    FlattenMember(frac, i, j);
    var n :| 0 <= n < |Flatten(frac)| && Flatten(frac)[n] == frac[i][j];
    FractionalCandidatesZero(Flatten(frac), n);
  }

  /** One turn of the inner fractional loop, over the matches before ms[j]. */
  lemma FractionalStep(before: seq<FractionalMatch>, ms: seq<FractionalMatch>, j: nat, intervals: seq<CasingPoint>)
    requires j < |ms| && ms[j].denominator != 0
    requires FractionalCandidates(before + ms[..j]) == Ok(intervals)
    ensures FractionalCandidates(before + ms[..j + 1])
         == Ok(intervals + DepthCandidate(ms[j].depths, PipeId(FractionalSize(ms[j]))))
  {
    PrefixStep(before, ms, j);
    FractionalCandidatesSnoc(before + ms[..j], ms[j]);
  }

  /** The loop over the fractional patterns' matches. */
  method FractionalIntervals(frac: seq<seq<FractionalMatch>>) returns (r: Result<seq<CasingPoint>>)
    ensures r == FractionalCandidates(Flatten(frac))
  {
    var intervals: seq<CasingPoint> := [];
    var i := 0;
    while i < |frac|
      invariant 0 <= i <= |frac|
      invariant FractionalCandidates(Flatten(frac[..i])) == Ok(intervals)
    {
      var step := FractionalPattern(Flatten(frac[..i]), frac[i], intervals);
      if step.Err? {
        var j :| 0 <= j < |frac[i]| && frac[i][j].denominator == 0;
        ZeroAnywhere(frac, i, j);
        return Err(ZeroDivision);
      }
      intervals := step.value;
      FlattenPrefix(frac, i);
      i := i + 1;
    }
    assert frac[..|frac|] == frac;
    r := Ok(intervals);
  }

  /** The inner loop over one fractional pattern's matches; a zero denominator raises. */
  method FractionalPattern(ghost before: seq<FractionalMatch>, ms: seq<FractionalMatch>, intervals0: seq<CasingPoint>)
    returns (r: Result<seq<CasingPoint>>)
    requires FractionalCandidates(before) == Ok(intervals0)
    ensures r.Ok? ==> FractionalCandidates(before + ms) == r
    ensures r.Err? ==> r == Err(ZeroDivision) && exists j :: 0 <= j < |ms| && ms[j].denominator == 0
  {
    var intervals := intervals0;
    assert before + ms[..0] == before;
    var j := 0;
    while j < |ms|
      invariant 0 <= j <= |ms|
      invariant FractionalCandidates(before + ms[..j]) == Ok(intervals)
    {
      var m := ms[j];
      if m.denominator == 0 {
        return Err(ZeroDivision);
      }
      var size := FractionalSize(m);
      var pipeId := PipeId(size);
      FractionalStep(before, ms, j, intervals);
      if |m.depths| == 1 {
        intervals := intervals + [CasingPoint(m.depths[0], pipeId)];
      } else if |m.depths| == 2 {
        // a depth range: its top depth is used
        intervals := intervals + [CasingPoint(m.depths[0], pipeId)];
      } else {
        assert intervals + DepthCandidate(m.depths, pipeId) == intervals;
      }
      j := j + 1;
    }
    assert ms[..|ms|] == ms;
    r := Ok(intervals);
  }

  /** The loop over the decimal patterns' matches. */
  method DecimalIntervals(dec: seq<seq<DecimalMatch>>) returns (intervals: seq<CasingPoint>)
    ensures intervals == DecimalCandidates(Flatten(dec))
  {
    intervals := [];
    var i := 0;
    while i < |dec|
      invariant 0 <= i <= |dec|
      invariant intervals == DecimalCandidates(Flatten(dec[..i]))
    {
      intervals := DecimalPattern(Flatten(dec[..i]), dec[i], intervals);
      FlattenPrefix(dec, i);
      i := i + 1;
    }
    assert dec[..|dec|] == dec;
  }

  /** The inner loop over one decimal pattern's matches. */
  method DecimalPattern(ghost before: seq<DecimalMatch>, ms: seq<DecimalMatch>, intervals0: seq<CasingPoint>)
    returns (intervals: seq<CasingPoint>)
    requires intervals0 == DecimalCandidates(before)
    ensures intervals == DecimalCandidates(before + ms)
  {
    intervals := intervals0;
    assert before + ms[..0] == before;
    var j := 0;
    while j < |ms|
      invariant 0 <= j <= |ms|
      invariant intervals == DecimalCandidates(before + ms[..j])
    {
      var m := ms[j];
      var pipeId := PipeId(m.size);
      PrefixStep(before, ms, j);
      DecimalCandidatesSnoc(before + ms[..j], m);
      if |m.depths| == 1 {
        intervals := intervals + [CasingPoint(m.depths[0], pipeId)];
      } else if |m.depths| == 2 {
        intervals := intervals + [CasingPoint(m.depths[0], pipeId)];
      } else {
        assert intervals + DepthCandidate(m.depths, pipeId) == intervals;
      }
      j := j + 1;
    }
    assert ms[..|ms|] == ms;
  }

  // ---------------------------------------------------------------- content gates

  const TableKeywords: seq<string> := ["md", "tvd", "inclination", "inc", "survey", "directional",
                                       "measured depth", "true vertical depth", "along hole", "ah"]

  const CasingKeywords: seq<string> := ["casing", "liner", "pipe id", "drift", "tubular", "schematic",
                                        "inner diameter", "od", "outer diameter"]

  /** How many of the keywords occur in t. */
  function KeywordCount(t: string, keywords: seq<string>): nat
  {
    if keywords == [] then 0
    else (if Contains(t, keywords[0]) then 1 else 0) + KeywordCount(t, keywords[1..])
  }

  /** is_trajectory_content; hasPattern says whether a trajectory pattern matches the text. */
  predicate IsTrajectoryContent(text: string, hasPattern: bool)
  {
    KeywordCount(Lower(text), TableKeywords) >= 2 || hasPattern
  }

  /** is_casing_content; hasFractional says whether the fractional-casing pattern matches the
      lower-cased text. */
  predicate IsCasingContent(text: string, hasFractional: bool)
  {
    KeywordCount(Lower(text), CasingKeywords) >= 2 || hasFractional
  }

  /** The count is at least one exactly when some keyword occurs. */
  lemma {:induction false} KeywordCountPositive(t: string, keywords: seq<string>)
    ensures KeywordCount(t, keywords) >= 1 <==>
              exists i :: 0 <= i < |keywords| && Contains(t, keywords[i])
    decreases |keywords|
  {
    if keywords != [] {
      var rest := keywords[1..];
      KeywordCountPositive(t, rest);
      if i :| 0 <= i < |keywords| && Contains(t, keywords[i]) {
        if i > 0 { assert Contains(t, rest[i - 1]); }
      }
      if i :| 0 <= i < |rest| && Contains(t, rest[i]) {
        assert Contains(t, keywords[i + 1]);
      }
    }
  }

  /** The count is at least two exactly when two different keywords of the list occur. */
  lemma {:induction false} KeywordCountTwo(t: string, keywords: seq<string>)
    ensures KeywordCount(t, keywords) >= 2 <==>
              exists i, j :: 0 <= i < j < |keywords| && Contains(t, keywords[i]) && Contains(t, keywords[j])
    decreases |keywords|
  {
    if keywords != [] {
      var rest := keywords[1..];
      KeywordCountTwo(t, rest);
      KeywordCountPositive(t, rest);
      if i, j :| 0 <= i < j < |keywords| && Contains(t, keywords[i]) && Contains(t, keywords[j]) {
        if i == 0 {
          assert Contains(t, rest[j - 1]);
        } else {
          assert Contains(t, rest[i - 1]) && Contains(t, rest[j - 1]);
        }
      }
      if KeywordCount(t, keywords) >= 2 {
        if Contains(t, keywords[0]) {
          var j :| 0 <= j < |rest| && Contains(t, rest[j]);
          assert Contains(t, keywords[j + 1]);
        } else {
          var i, j :| 0 <= i < j < |rest| && Contains(t, rest[i]) && Contains(t, rest[j]);
          assert Contains(t, keywords[i + 1]) && Contains(t, keywords[j + 1]);
        }
      }
    }
  }

  /** A text is trajectory content exactly when a trajectory pattern matches or two different
      table keywords occur in its lower-cased form. */
  lemma TrajectoryContentIff(text: string, hasPattern: bool)
    ensures IsTrajectoryContent(text, hasPattern) <==>
              hasPattern ||
              exists i, j :: 0 <= i < j < |TableKeywords| &&
                Contains(Lower(text), TableKeywords[i]) && Contains(Lower(text), TableKeywords[j])
  {
    KeywordCountTwo(Lower(text), TableKeywords);
  }

  /** A text is casing content exactly when the fractional pattern matches or two different
      casing keywords occur in its lower-cased form. */
  lemma CasingContentIff(text: string, hasFractional: bool)
    ensures IsCasingContent(text, hasFractional) <==>
              hasFractional ||
              exists i, j :: 0 <= i < j < |CasingKeywords| &&
                Contains(Lower(text), CasingKeywords[i]) && Contains(Lower(text), CasingKeywords[j])
  {
    KeywordCountTwo(Lower(text), CasingKeywords);
  }

  /** Keywords overlap: "inclination" contains "inc", so that one word is enough. */
  lemma InclinationAloneIsTrajectory(text: string, hasPattern: bool)
    requires Contains(Lower(text), "inclination")
    ensures IsTrajectoryContent(text, hasPattern)
  {
    var t := Lower(text);
    assert StartsWith("inclination", "inc");
    ContainsTransitive(t, "inclination", "inc");
    assert TableKeywords[2] == "inclination" && TableKeywords[3] == "inc";
    KeywordCountTwo(t, TableKeywords);
  }

  /** "production" contains the keyword "od", so "production casing" alone is casing content. */
  lemma ProductionCasingIsCasing(text: string, hasFractional: bool)
    requires Contains(Lower(text), "production") && Contains(Lower(text), "casing")
    ensures IsCasingContent(text, hasFractional)
  {
    var t := Lower(text);
    assert "production"[2..4] == "od";
    assert OccursAt("production", "od", 2);
    ContainsAt("production", "od");
    ContainsTransitive(t, "production", "od");
    assert CasingKeywords[0] == "casing" && CasingKeywords[7] == "od";
    KeywordCountTwo(t, CasingKeywords);
  }
}

/** agents/extraction_agent.py: the older ParameterExtractionAgent. It reads trajectory points,
    casing sections, a pressure and a temperature out of each chunk's text, collects them into
    a WellParameters record and joins casing sections onto the trajectory by depth interval.
    The regular expressions are not modelled: each chunk arrives with the groups `re.findall`
    or `re.search` returns for it, numeric groups already read as numbers. */
module ExtractionAgent {
  import opened Common
  import opened Text
  import opened Ordering
  import UnitConverter
  import Validators

  /** The TrajectoryPoint dataclass. */
  datatype TrajectoryPoint = TrajectoryPoint(md: real, tvd: real, inclination: Option<real>,
                                             azimuth: Option<real>, confidence: real)

  /** The CasingSection dataclass. */
  datatype CasingSection = CasingSection(topDepth: real, bottomDepth: real, diameter: real,
                                         grade: Option<string>, weight: Option<real>, confidence: real)

  /** The three numbers of one match of the table-row pattern. */
  datatype TableGroups = TableGroups(md: real, tvd: real, inc: real)

  /** One match of the fractional casing pattern: whole, numerator and denominator of the
      size, the first depth and, when a range was written, the second depth. */
  datatype FractionalGroups = FractionalGroups(whole: nat, numerator: nat, denominator: nat,
                                               depth: real, secondDepth: Option<real>)

  /** One match of the decimal casing pattern: the size in inches and the depth groups. */
  datatype DecimalGroups = DecimalGroups(inches: real, depth: real, secondDepth: Option<real>)

  /** The number and unit of the first pressure or temperature match. */
  datatype Reading = Reading(value: real, unit: string)

  /** What the regular expressions find in one chunk's text. */
  datatype ChunkMatches = ChunkMatches(
    text: string,
    table: seq<TableGroups>,                 // the table-row pattern
    mdValues: seq<real>,                     // MD: ... m
    tvdValues: seq<real>,                    // TVD: ... m
    incValues: seq<real>,                    // Inc: ... deg
    fractional: seq<FractionalGroups>,       // fractional casing pattern
    decimal: seq<DecimalGroups>,             // decimal casing pattern
    pressure: Option<Reading>,               // re.search of the pressure pattern
    temperature: Option<Reading>)            // re.search of the temperature pattern

  // ---------------------------------------------------------------- extract_trajectory_from_text

  const TrajectoryKeywords: seq<string> := ["TRAJECTORY", "MD", "TVD", "INC", "MEASURED DEPTH", "TRUE VERTICAL"]

  /** The table indicator: some keyword occurs in the upper-cased text. */
  predicate HasTrajectoryTable(text: string)
  {
    exists i :: 0 <= i < |TrajectoryKeywords| && Contains(Upper(text), TrajectoryKeywords[i])
  }

  /** The plausibility test a table row must pass. */
  predicate TableRowAccepted(g: TableGroups)
  {
    g.md >= g.tvd && 0.0 <= g.md <= 10000.0 && 0.0 <= g.inc <= 90.0
  }

  function TablePoint(g: TableGroups): TrajectoryPoint
  {
    TrajectoryPoint(g.md, g.tvd, Some(g.inc), None, 0.8)
  }

  /** The accepted table rows as points, in match order. */
  function TablePoints(rows: seq<TableGroups>): seq<TrajectoryPoint>
  {
    if rows == [] then []
    else
      var g := rows[|rows| - 1];
      TablePoints(rows[..|rows| - 1]) + if TableRowAccepted(g) then [TablePoint(g)] else []
  }

  /** The i-th point of the named-field fallback. */
  function NamedPoint(mds: seq<real>, tvds: seq<real>, incs: seq<real>, i: nat): TrajectoryPoint
    requires i < |mds| && i < |tvds|
  {
    TrajectoryPoint(mds[i], tvds[i], if i < |incs| then Some(incs[i]) else None, None, 0.7)
  }

  /** The named-field fallback: the MD and TVD values zipped when their counts agree. */
  function NamedPoints(mds: seq<real>, tvds: seq<real>, incs: seq<real>): seq<TrajectoryPoint>
  {
    if |mds| != |tvds| then []
    else seq(|mds|, i requires 0 <= i < |mds| => NamedPoint(mds, tvds, incs, i))
  }

  /** What extract_trajectory_from_text returns. */
  function TrajectoryFromText(m: ChunkMatches): seq<TrajectoryPoint>
  {
    TrajectoryFrom(HasTrajectoryTable(m.text), m)
  }

  /** The same, given the outcome of the table indicator. */
  function TrajectoryFrom(hasTable: bool, m: ChunkMatches): seq<TrajectoryPoint>
  {
    var table := if hasTable then TablePoints(m.table) else [];
    if table != [] then table else NamedPoints(m.mdValues, m.tvdValues, m.incValues)
  }

  method ExtractTrajectoryFromText(m: ChunkMatches) returns (points: seq<TrajectoryPoint>)
    ensures points == TrajectoryFromText(m)
  {
    points := [];
    var hasTable := HasTrajectoryTable(m.text);
    if hasTable {
      points := TableRows(m.table);
    }
    if points == [] {
      points := NamedFields(m.mdValues, m.tvdValues, m.incValues);
    }
  }

  /** The loop over the table-row matches. */
  method TableRows(rows: seq<TableGroups>) returns (points: seq<TrajectoryPoint>)
    ensures points == TablePoints(rows)
  {
    points := [];
    var i := 0;
    while i < |rows|
      invariant 0 <= i <= |rows|
      invariant points == TablePoints(rows[..i])
    {
      var g := rows[i];
      assert rows[..i + 1][..i] == rows[..i];
      if g.md >= g.tvd && 0.0 <= g.md <= 10000.0 && 0.0 <= g.inc <= 90.0 {
        points := points + [TrajectoryPoint(g.md, g.tvd, Some(g.inc), None, 0.8)];
      }
      i := i + 1;
    }
    assert rows[..|rows|] == rows;
  }

  /** The loop of the named-field fallback. */
  method NamedFields(mds: seq<real>, tvds: seq<real>, incs: seq<real>) returns (points: seq<TrajectoryPoint>)
    ensures points == NamedPoints(mds, tvds, incs)
  {
    points := [];
    if |mds| == |tvds| {
      var i := 0;
      while i < |mds|
        invariant 0 <= i <= |mds|
        invariant |points| == i && forall j :: 0 <= j < i ==> points[j] == NamedPoint(mds, tvds, incs, j)
      {
        var inc := if i < |incs| then Some(incs[i]) else None;
        points := points + [TrajectoryPoint(mds[i], tvds[i], inc, None, 0.7)];
        i := i + 1;
      }
    }
  }

  /** A table point is an accepted row, and every accepted row gives one. */
  lemma {:induction false} TablePointsFromRows(rows: seq<TableGroups>, p: TrajectoryPoint)
    ensures p in TablePoints(rows) ==> exists k :: 0 <= k < |rows| && TableRowAccepted(rows[k]) && p == TablePoint(rows[k])
    ensures (exists k :: 0 <= k < |rows| && TableRowAccepted(rows[k]) && p == TablePoint(rows[k])) ==> p in TablePoints(rows)
    decreases |rows|
  {
    if rows != [] {
      var prefix := rows[..|rows| - 1];
      TablePointsFromRows(prefix, p);
      if k :| 0 <= k < |rows| && TableRowAccepted(rows[k]) && p == TablePoint(rows[k]) {
        if k < |prefix| {
          assert prefix[k] == rows[k];
        }
      }
      if p in TablePoints(prefix) {
        var k :| 0 <= k < |prefix| && TableRowAccepted(prefix[k]) && p == TablePoint(prefix[k]);
        assert rows[k] == prefix[k];
      }
    }
  }

  /** The table points pass the plausibility test and carry confidence 0.8. */
  lemma TablePointsPlausible(rows: seq<TableGroups>, p: TrajectoryPoint)
    requires p in TablePoints(rows)
    ensures p.md >= p.tvd && 0.0 <= p.md <= 10000.0
    ensures p.inclination.Some? && 0.0 <= p.inclination.value <= 90.0
    ensures p.confidence == 0.8 && p.azimuth.None?
  {
    TablePointsFromRows(rows, p);
  }

  /** The fallback pairs the i-th MD with the i-th TVD and applies no plausibility test; past
      the last inclination match the inclination is absent. */
  lemma NamedPointsZip(mds: seq<real>, tvds: seq<real>, incs: seq<real>)
    ensures |mds| != |tvds| ==> NamedPoints(mds, tvds, incs) == []
    ensures |mds| == |tvds| ==> |NamedPoints(mds, tvds, incs)| == |mds|
    ensures |mds| == |tvds| ==> forall i :: 0 <= i < |mds| ==>
              NamedPoints(mds, tvds, incs)[i].md == mds[i] && NamedPoints(mds, tvds, incs)[i].tvd == tvds[i] &&
              NamedPoints(mds, tvds, incs)[i].confidence == 0.7 &&
              (NamedPoints(mds, tvds, incs)[i].inclination.Some? <==> i < |incs|)
  {
  }

  /** The fallback keeps an implausible pair that the table filter would reject. */
  lemma NamedPointsUnfiltered()
    ensures NamedPoints([10.0], [20.0], []) == [TrajectoryPoint(10.0, 20.0, None, None, 0.7)]
    ensures TablePoints([TableGroups(10.0, 20.0, 0.0)]) == []
  {
    assert TablePoints([TableGroups(10.0, 20.0, 0.0)][..0]) == [];
  }

  /** The fallback is used exactly when the table grammar yields nothing: either the indicator
      is missing or no table row is plausible. */
  lemma TrajectoryFallbackIff(hasTable: bool, m: ChunkMatches)
    ensures (hasTable && exists k :: 0 <= k < |m.table| && TableRowAccepted(m.table[k])) ==>
              TrajectoryFrom(hasTable, m) == TablePoints(m.table) &&
              forall i :: 0 <= i < |TrajectoryFrom(hasTable, m)| ==> TrajectoryFrom(hasTable, m)[i].confidence == 0.8
    ensures !(hasTable && exists k :: 0 <= k < |m.table| && TableRowAccepted(m.table[k])) ==>
              TrajectoryFrom(hasTable, m) == NamedPoints(m.mdValues, m.tvdValues, m.incValues)
  {
    if hasTable {
      if k :| 0 <= k < |m.table| && TableRowAccepted(m.table[k]) {
        TablePointsFromRows(m.table, TablePoint(m.table[k]));
        forall i | 0 <= i < |TablePoints(m.table)| ensures TablePoints(m.table)[i].confidence == 0.8 {
          TablePointsPlausible(m.table, TablePoints(m.table)[i]);
        }
      } else if TablePoints(m.table) != [] {
        TablePointsFromRows(m.table, TablePoints(m.table)[0]);
      }
    }
  }

  /** Any text mentioning MD, in any case, passes the table indicator. */
  lemma MdMentionIsTable(text: string)
    requires Contains(Upper(text), "MD")
    ensures HasTrajectoryTable(text)
  {
    assert TrajectoryKeywords[1] == "MD";
  }

  // ---------------------------------------------------------------- extract_casing_from_text

  /** The diameter in metres of a size in inches, through inch_to_meter. */
  function Diameter(inches: real): real
  {
    UnitConverter.InchToMeter(UnitConverter.Number(inches)).value
  }

  /** The (top, bottom) pair both casing loops read from the depth groups: the first number
      becomes the bottom depth and the second, when a range is written, the top depth. */
  function IntervalAsWritten(depth: real, second: Option<real>): (real, real)
  {
    (if second.Some? then second.value else 0.0, depth)
  }

  /** The interval the depth groups denote: from surface down to a single depth, or between
      the two ends of a written range. */
  function Interval(depth: real, second: Option<real>): (real, real)
  {
    if second.None? then (0.0, depth)
    else if depth <= second.value then (depth, second.value)
    else (second.value, depth)
  }

  /** The depth md lies in the interval iv. */
  predicate Within(iv: (real, real), md: real) { iv.0 <= md <= iv.1 }

  /** As written, a range given shallow end first, such as "to 500 - 1000 m", yields a top
      below its bottom, so no depth at all lies inside the section. */
  lemma IntervalAsWrittenInverted(depth: real, second: real)
    requires depth < second
    ensures var iv := IntervalAsWritten(depth, Some(second));
            iv.0 > iv.1 && forall md: real :: !Within(iv, md)
  {
  }

  /** The interval holds exactly the depths between surface and a single depth, or between the
      two ends of a range whichever way round it is written; a single depth reads the same as
      the source reads it. */
  lemma IntervalCovers(depth: real, second: Option<real>, md: real)
    ensures second.None? ==> Interval(depth, second) == IntervalAsWritten(depth, second)
    ensures second.None? ==> (Within(Interval(depth, second), md) <==> 0.0 <= md <= depth)
    ensures second.Some? ==> (Within(Interval(depth, second), md) <==>
                               depth <= md <= second.value || second.value <= md <= depth)
  {
  }

  /** One section of the fractional pattern; a zero denominator raises ZeroDivisionError,
      which the loop does not catch. */
  function FractionalSection(g: FractionalGroups): Result<CasingSection>
  {
    if g.denominator == 0 then Err(ZeroDivision)
    else
      var iv := IntervalAsWritten(g.depth, g.secondDepth);
      Ok(CasingSection(iv.0, iv.1, Diameter(g.whole as real + Ratio(g.numerator, g.denominator)), None, None, 0.8))
  }

  /** The sections of the fractional matches, in match order and without deduplication. */
  function FractionalSections(gs: seq<FractionalGroups>): (r: Result<seq<CasingSection>>)
    ensures r.Ok? ==> |r.value| == |gs| &&
                      forall k :: 0 <= k < |gs| ==> gs[k].denominator != 0 && r.value[k] == FractionalSection(gs[k]).value
    ensures r.Err? ==> r.error == ZeroDivision && exists k :: 0 <= k < |gs| && gs[k].denominator == 0
  {
    if gs == [] then Ok([])
    else
      var prefix := FractionalSections(gs[..|gs| - 1]);
      var s := FractionalSection(gs[|gs| - 1]);
      if prefix.Err? then prefix
      else if s.Err? then Err(s.error)
      else Ok(prefix.value + [s.value])
  }

  /** One section of the decimal pattern. */
  function DecimalSection(g: DecimalGroups): CasingSection
  {
    var iv := IntervalAsWritten(g.depth, g.secondDepth);
    CasingSection(iv.0, iv.1, Diameter(g.inches), None, None, 0.8)
  }

  /** The proximity test of the decimal loop: diameters within 0.01 m and bottom depths
      within 1 m. */
  predicate NearDuplicate(c: CasingSection, s: CasingSection)
  {
    Abs(c.diameter - s.diameter) < 0.01 && Abs(c.bottomDepth - s.bottomDepth) < 1.0
  }

  /** Some section already collected is a near duplicate of s. */
  predicate IsDuplicate(sections: seq<CasingSection>, s: CasingSection)
  {
    exists i :: 0 <= i < |sections| && NearDuplicate(sections[i], s)
  }

  /** The decimal matches appended to the sections found so far, each unless it is a near
      duplicate of one already there. */
  function DecimalSections(existing: seq<CasingSection>, ms: seq<DecimalGroups>): (r: seq<CasingSection>)
    ensures |existing| <= |r| <= |existing| + |ms| && r[..|existing|] == existing
  {
    if ms == [] then existing
    else
      var acc := DecimalSections(existing, ms[..|ms| - 1]);
      var s := DecimalSection(ms[|ms| - 1]);
      if IsDuplicate(acc, s) then acc else acc + [s]
  }

  /** What extract_casing_from_text returns: the fractional sections, then the decimal ones. */
  function CasingFromText(m: ChunkMatches): Result<seq<CasingSection>>
  {
    var f := FractionalSections(m.fractional);
    if f.Err? then Err(f.error) else Ok(DecimalSections(f.value, m.decimal))
  }

  method ExtractCasingFromText(m: ChunkMatches) returns (r: Result<seq<CasingSection>>)
    ensures r == CasingFromText(m)
  {
    var sections: seq<CasingSection> := [];
    var i := 0;
    while i < |m.fractional|
      invariant 0 <= i <= |m.fractional|
      invariant FractionalSections(m.fractional[..i]) == Ok(sections)
    {
      var g := m.fractional[i];
      assert m.fractional[..i + 1][..i] == m.fractional[..i];
      if g.denominator == 0 {
        assert m.fractional[..|m.fractional|] == m.fractional;
        return Err(ZeroDivision);
      }
      var diameterInch := g.whole as real + g.numerator as real / g.denominator as real;
      var iv := IntervalAsWritten(g.depth, g.secondDepth);
      sections := sections + [CasingSection(iv.0, iv.1, Diameter(diameterInch), None, None, 0.8)];
      i := i + 1;
    }
    assert m.fractional[..|m.fractional|] == m.fractional;
    sections := AppendDecimal(sections, m.decimal);
    r := Ok(sections);
  }

  /** The loop over the decimal matches. */
  method AppendDecimal(existing: seq<CasingSection>, ms: seq<DecimalGroups>) returns (sections: seq<CasingSection>)
    ensures sections == DecimalSections(existing, ms)
  {
    sections := existing;
    var j := 0;
    while j < |ms|
      invariant 0 <= j <= |ms|
      invariant sections == DecimalSections(existing, ms[..j])
    {
      var s := DecimalSection(ms[j]);
      var duplicate := AnyNearDuplicate(sections, s);
      assert ms[..j + 1][..j] == ms[..j];
      if !duplicate {
        sections := sections + [s];
      }
      j := j + 1;
    }
    assert ms[..|ms|] == ms;
  }

  /** The any(...) of the decimal loop. */
  method AnyNearDuplicate(sections: seq<CasingSection>, s: CasingSection) returns (duplicate: bool)
    ensures duplicate == IsDuplicate(sections, s)
  {
    duplicate := false;
    var k := 0;
    while k < |sections|
      invariant 0 <= k <= |sections|
      invariant !duplicate ==> forall i :: 0 <= i < k ==> !NearDuplicate(sections[i], s)
      invariant duplicate ==> IsDuplicate(sections, s)
    {
      var c := sections[k];
      if Abs(c.diameter - s.diameter) < 0.01 && Abs(c.bottomDepth - s.bottomDepth) < 1.0 {
        duplicate := true;
      }
      k := k + 1;
    }
  }

  /** No decimal match is lost: each one is represented in the result by a section within
      0.01 m of its diameter and 1 m of its bottom depth (itself, when it was appended). */
  lemma {:induction false} DecimalSectionsRepresent(existing: seq<CasingSection>, ms: seq<DecimalGroups>, k: int)
    requires 0 <= k < |ms|
    ensures IsDuplicate(DecimalSections(existing, ms), DecimalSection(ms[k]))
    decreases |ms|
  {
    var prefix := ms[..|ms| - 1];
    var acc := DecimalSections(existing, prefix);
    var r := DecimalSections(existing, ms);
    assert acc == r[..|acc|];
    if k < |prefix| {
      DecimalSectionsRepresent(existing, prefix, k);
      var i :| 0 <= i < |acc| && NearDuplicate(acc[i], DecimalSection(prefix[k]));
      assert r[i] == acc[i] && prefix[k] == ms[k];
    } else {
      var s := DecimalSection(ms[k]);
      if !IsDuplicate(acc, s) {
        assert r[|acc|] == s && NearDuplicate(s, s);
      } else {
        var i :| 0 <= i < |acc| && NearDuplicate(acc[i], s);
        assert r[i] == acc[i];
      }
    }
  }

  /** Every section the decimal loop adds comes from a decimal match and has no near duplicate
      before it, among the fractional sections or the earlier decimal ones. */
  lemma {:induction false} DecimalSectionsAdded(existing: seq<CasingSection>, ms: seq<DecimalGroups>, j: int)
    requires |existing| <= j < |DecimalSections(existing, ms)|
    ensures exists k :: 0 <= k < |ms| && DecimalSections(existing, ms)[j] == DecimalSection(ms[k])
    ensures !IsDuplicate(DecimalSections(existing, ms)[..j], DecimalSections(existing, ms)[j])
    decreases |ms|
  {
    var prefix := ms[..|ms| - 1];
    var acc := DecimalSections(existing, prefix);
    var r := DecimalSections(existing, ms);
    if j < |acc| {
      DecimalSectionsAdded(existing, prefix, j);
      assert r[..|acc|] == acc;
      assert r[j] == acc[j] && r[..j] == acc[..j];
      var k :| 0 <= k < |prefix| && acc[j] == DecimalSection(prefix[k]);
      assert prefix[k] == ms[k];
    } else {
      assert r == acc + [DecimalSection(ms[|ms| - 1])] && r[..j] == acc;
    }
  }

  /** A casing chunk fails exactly when a fractional match has denominator 0; otherwise every
      fractional match gives a section, in order, ahead of the decimal ones. */
  lemma CasingFromTextSpec(m: ChunkMatches)
    ensures CasingFromText(m).Err? ==> exists k :: 0 <= k < |m.fractional| && m.fractional[k].denominator == 0
    ensures (exists k :: 0 <= k < |m.fractional| && m.fractional[k].denominator == 0) ==> CasingFromText(m).Err?
    ensures CasingFromText(m).Ok? ==> |m.fractional| <= |CasingFromText(m).value|
    ensures CasingFromText(m).Ok? ==> forall k :: 0 <= k < |m.fractional| ==> CasingFromText(m).value[k] == FractionalSection(m.fractional[k]).value
  {
    var f := FractionalSections(m.fractional);
    if f.Ok? {
      var r := DecimalSections(f.value, m.decimal);
      forall k | 0 <= k < |m.fractional| ensures r[k] == f.value[k] {
        assert r[..|f.value|][k] == r[k];
      }
    }
  }

  /** A 13 3/8 inch string is 0.339725 m across: no reduction from outer to inner diameter. */
  lemma ThirteenThreeEighthsDiameter(depth: real)
    ensures FractionalSection(FractionalGroups(13, 3, 8, depth, None)) ==
            Ok(CasingSection(0.0, depth, 0.339725, None, None, 0.8))
  {
  }

  /** A range is stored as written: a size "to 500 - 1000 m" gets top 1000 and bottom 500, so the
      same size "to 1000 m" later on lies 500 m from that bottom and is kept as a second section. */
  lemma RangeStoredAsWritten(inches: real)
    ensures DecimalSection(DecimalGroups(inches, 500.0, Some(1000.0))).topDepth == 1000.0
    ensures DecimalSection(DecimalGroups(inches, 500.0, Some(1000.0))).bottomDepth == 500.0
    ensures |DecimalSections([], [DecimalGroups(inches, 500.0, Some(1000.0)), DecimalGroups(inches, 1000.0, None)])| == 2
  {
    var ms := [DecimalGroups(inches, 500.0, Some(1000.0)), DecimalGroups(inches, 1000.0, None)];
    var first := DecimalSections([], ms[..1]);
    assert ms[..1][..0] == [];
    assert first == [DecimalSection(ms[0])];
    assert !NearDuplicate(first[0], DecimalSection(ms[1]));
  }

  // ---------------------------------------------------------------- pressure and temperature

  /** Where the chunk says the pressure was measured. */
  datatype PressureContext = Reservoir | Wellhead | GenericContext

  /** The context is judged on the whole chunk text, not on the match. */
  function ContextOf(text: string): PressureContext
  {
    var lower := Lower(text);
    if Contains(lower, "reservoir") then Reservoir
    else if Contains(lower, "wellhead") then Wellhead
    else GenericContext
  }

  datatype PressureReading = PressureReading(bar: real, context: PressureContext)

  /** extract_pressure: None without a match, else the value in bar; normalize_pressure
      raises on an unknown unit. */
  function ExtractPressure(m: ChunkMatches): Result<Option<PressureReading>>
  {
    if m.pressure.None? then Ok(None)
    else
      var bar := UnitConverter.NormalizePressure(m.pressure.value.value, m.pressure.value.unit);
      if bar.Err? then Err(bar.error) else Ok(Some(PressureReading(bar.value, ContextOf(m.text))))
  }

  /** extract_temperature: None without a match, else the value in degrees Celsius. */
  function ExtractTemperature(m: ChunkMatches): Result<Option<real>>
  {
    if m.temperature.None? then Ok(None)
    else
      var celsius := UnitConverter.NormalizeTemperature(m.temperature.value.value, m.temperature.value.unit);
      if celsius.Err? then Err(celsius.error) else Ok(Some(celsius.value))
  }

  /** A temperature reading fails exactly on a unit normalize_temperature does not know. */
  lemma ExtractTemperatureSpec(m: ChunkMatches)
    ensures ExtractTemperature(m).Err? ==> m.temperature.Some? && !UnitConverter.KnownTemperatureKey(UnitConverter.UnitKey(m.temperature.value.unit))
    ensures m.temperature.Some? && !UnitConverter.KnownTemperatureKey(UnitConverter.UnitKey(m.temperature.value.unit)) ==> ExtractTemperature(m).Err?
    ensures ExtractTemperature(m).Ok? ==> (ExtractTemperature(m).value.None? <==> m.temperature.None?)
  {
    if m.temperature.Some? {
      UnitConverter.NormalizeTemperatureSpec(m.temperature.value.value, m.temperature.value.unit);
    }
  }

  /** A pressure reading fails exactly on a unit normalize_pressure does not know; a matched
      value in bar comes back unchanged. */
  lemma ExtractPressureSpec(m: ChunkMatches)
    ensures ExtractPressure(m).Err? ==> m.pressure.Some? && !UnitConverter.KnownPressureKey(UnitConverter.UnitKey(m.pressure.value.unit))
    ensures m.pressure.Some? && !UnitConverter.KnownPressureKey(UnitConverter.UnitKey(m.pressure.value.unit)) ==> ExtractPressure(m).Err?
    ensures ExtractPressure(m).Ok? ==> (ExtractPressure(m).value.None? <==> m.pressure.None?)
    ensures m.pressure.Some? && UnitConverter.UnitKey(m.pressure.value.unit) == "bar" ==>
              ExtractPressure(m) == Ok(Some(PressureReading(m.pressure.value.value, ContextOf(m.text))))
  {
    if m.pressure.Some? {
      UnitConverter.NormalizePressureSpec(m.pressure.value.value, m.pressure.value.unit);
    }
  }

  // ---------------------------------------------------------------- merge_trajectory_and_casing

  /** One dictionary of the merged list. */
  datatype MergedRow = MergedRow(md: real, tvd: real, inclination: Option<real>, pipeId: Option<real>,
                                 azimuth: Option<real>)

  function PointMd(p: TrajectoryPoint): real { p.md }

  function TopDepth(c: CasingSection): real { c.topDepth }

  function RowMd(r: MergedRow): real { r.md }

  /** The interval test of the merge. */
  predicate Covers(c: CasingSection, md: real)
  {
    c.topDepth <= md <= c.bottomDepth
  }

  /** The diameter of the first section, in list order, that covers md. */
  function PipeAt(sections: seq<CasingSection>, md: real): Option<real>
  {
    if sections == [] then None
    else if Covers(sections[0], md) then Some(sections[0].diameter)
    else PipeAt(sections[1..], md)
  }

  /** Section k is the first in the list to cover md. */
  predicate FirstCover(sections: seq<CasingSection>, md: real, k: int)
  {
    0 <= k < |sections| && Covers(sections[k], md) && forall j :: 0 <= j < k ==> !Covers(sections[j], md)
  }

  function RowOf(p: TrajectoryPoint, sections: seq<CasingSection>): MergedRow
  {
    MergedRow(p.md, p.tvd, p.inclination, PipeAt(sections, p.md), p.azimuth)
  }

  /** The rows of points st against sections sc, both already sorted. */
  function Rows(st: seq<TrajectoryPoint>, sc: seq<CasingSection>): seq<MergedRow>
  {
    seq(|st|, i requires 0 <= i < |st| => RowOf(st[i], sc))
  }

  /** What merge_trajectory_and_casing returns: one row per survey point, in md order, against
      the sections in order of top depth. */
  function MergedRows(traj: seq<TrajectoryPoint>, casing: seq<CasingSection>): seq<MergedRow>
  {
    Rows(SortBy(traj, PointMd), SortBy(casing, TopDepth))
  }

  method MergeTrajectoryAndCasing(traj: seq<TrajectoryPoint>, casing: seq<CasingSection>) returns (rows: seq<MergedRow>)
    ensures rows == MergedRows(traj, casing)
  {
    var trajectorySorted := SortBy(traj, PointMd);
    var casingSorted := SortBy(casing, TopDepth);
    rows := BuildRows(trajectorySorted, casingSorted);
  }

  /** The outer loop of the merge. */
  method BuildRows(st: seq<TrajectoryPoint>, sc: seq<CasingSection>) returns (rows: seq<MergedRow>)
    ensures rows == Rows(st, sc)
  {
    rows := [];
    var i := 0;
    while i < |st|
      invariant 0 <= i <= |st|
      invariant |rows| == i && forall j :: 0 <= j < i ==> rows[j] == RowOf(st[j], sc)
    {
      var p := st[i];
      var pipeId := FindPipe(sc, p.md);
      rows := rows + [MergedRow(p.md, p.tvd, p.inclination, pipeId, p.azimuth)];
      i := i + 1;
    }
  }

  /** The inner loop of the merge, which stops at the first covering section. */
  method FindPipe(sections: seq<CasingSection>, md: real) returns (pipeId: Option<real>)
    ensures pipeId == PipeAt(sections, md)
  {
    pipeId := None;
    var k := 0;
    while k < |sections|
      invariant 0 <= k <= |sections|
      invariant PipeAt(sections, md) == PipeAt(sections[k..], md)
    {
      if sections[k].topDepth <= md <= sections[k].bottomDepth {
        pipeId := Some(sections[k].diameter);
        break;
      }
      assert sections[k..][1..] == sections[k + 1..];
      k := k + 1;
    }
  }

  /** PipeAt finds the first covering section, and nothing when no section covers md. */
  lemma {:induction false} PipeAtFirst(sections: seq<CasingSection>, md: real)
    ensures PipeAt(sections, md).None? ==> forall k :: 0 <= k < |sections| ==> !Covers(sections[k], md)
    ensures PipeAt(sections, md).Some? ==>
              exists k :: FirstCover(sections, md, k) && PipeAt(sections, md).value == sections[k].diameter
    decreases |sections|
  {
    if sections != [] && !Covers(sections[0], md) {
      var tail := sections[1..];
      PipeAtFirst(tail, md);
      if PipeAt(tail, md).None? {
        forall k | 0 <= k < |sections| ensures !Covers(sections[k], md) {
          if k > 0 { assert sections[k] == tail[k - 1]; }
        }
      } else {
        var k :| FirstCover(tail, md, k) && PipeAt(tail, md).value == tail[k].diameter;
        forall j | 0 <= j < k + 1 ensures !Covers(sections[j], md) {
          if j > 0 { assert sections[j] == tail[j - 1]; }
        }
        assert FirstCover(sections, md, k + 1);
      }
    } else if sections != [] {
      assert FirstCover(sections, md, 0);
    }
  }

  /** The row repeats the depth, tvd, inclination and azimuth of point p. */
  predicate FromPoint(row: MergedRow, p: TrajectoryPoint)
  {
    row.md == p.md && row.tvd == p.tvd && row.inclination == p.inclination && row.azimuth == p.azimuth
  }

  /** The rows are the survey points in order of md, one each. */
  lemma MergedRowsPoints(traj: seq<TrajectoryPoint>, casing: seq<CasingSection>)
    ensures |MergedRows(traj, casing)| == |traj|
    ensures SortedBy(MergedRows(traj, casing), RowMd)
    ensures forall i :: 0 <= i < |traj| ==> exists p :: p in traj && FromPoint(MergedRows(traj, casing)[i], p)
    ensures forall i :: 0 <= i < |traj| ==> FromPoint(MergedRows(traj, casing)[i], SortBy(traj, PointMd)[i])
    ensures multiset(SortBy(traj, PointMd)) == multiset(traj)
  {
    var st := SortBy(traj, PointMd);
    var rows := MergedRows(traj, casing);
    forall i | 0 <= i < |traj| ensures st[i] in traj && rows[i].md == st[i].md && FromPoint(rows[i], st[i]) {
    }
    forall a, b | 0 <= a < b < |rows| ensures RowMd(rows[a]) <= RowMd(rows[b]) {
      assert PointMd(st[a]) <= PointMd(st[b]);
    }
  }

  /** A row carries no pipe exactly when no casing section covers its depth; otherwise the pipe
      of a covering section whose top is shallowest among the covering ones. */
  lemma MergedPipe(traj: seq<TrajectoryPoint>, casing: seq<CasingSection>, i: int)
    requires 0 <= i < |traj|
    ensures var row := MergedRows(traj, casing)[i];
            row.pipeId.None? ==> forall c :: c in casing ==> !Covers(c, row.md)
    ensures var row := MergedRows(traj, casing)[i];
            (exists c :: c in casing && Covers(c, row.md)) ==> row.pipeId.Some?
    ensures var row := MergedRows(traj, casing)[i];
            row.pipeId.Some? ==> exists c :: c in casing && Covers(c, row.md) && row.pipeId.value == c.diameter &&
                                   forall d :: d in casing && Covers(d, row.md) ==> c.topDepth <= d.topDepth
  {
    var sc := SortBy(casing, TopDepth);
    var row := MergedRows(traj, casing)[i];
    var md := row.md;
    assert |SortBy(traj, PointMd)| == |traj|;
    assert row.pipeId == PipeAt(sc, md);
    PipeAtFirst(sc, md);
    if row.pipeId.None? {
      forall c | c in casing ensures !Covers(c, md) {
        assert c in multiset(sc);
      }
    } else {
      var k :| FirstCover(sc, md, k) && row.pipeId.value == sc[k].diameter;
      assert sc[k] in multiset(casing);
      forall d | d in casing && Covers(d, md) ensures sc[k].topDepth <= d.topDepth {
        assert d in multiset(sc);
        var m :| 0 <= m < |sc| && sc[m] == d;
        assert k <= m;
        assert TopDepth(sc[k]) <= TopDepth(sc[m]);
      }
    }
  }

  /** With the range read as written, a point inside "to 500 - 1000 m" finds no pipe; with the
      interval read as meant it finds that section's diameter. */
  lemma AsWrittenRangeLosesPipe(depth: real, second: real, diameter: real, p: TrajectoryPoint)
    requires depth < second && depth <= p.md <= second
    ensures var iv := IntervalAsWritten(depth, Some(second));
            MergedRows([p], [CasingSection(iv.0, iv.1, diameter, None, None, 0.8)])[0].pipeId.None?
    ensures var iv := Interval(depth, Some(second));
            MergedRows([p], [CasingSection(iv.0, iv.1, diameter, None, None, 0.8)])[0].pipeId == Some(diameter)
  {
    var wrong := IntervalAsWritten(depth, Some(second));
    var right := Interval(depth, Some(second));
    var cw := CasingSection(wrong.0, wrong.1, diameter, None, None, 0.8);
    var cr := CasingSection(right.0, right.1, diameter, None, None, 0.8);
    SortBySorted([p], PointMd);
    SortBySorted([cw], TopDepth);
    SortBySorted([cr], TopDepth);
    assert PipeAt([cw], p.md) == None by { assert [cw][1..] == []; }
  }

  // ---------------------------------------------------------------- extract_from_chunks

  /** What the four extractors return for one chunk. */
  datatype ChunkFinds = ChunkFinds(trajectory: seq<TrajectoryPoint>, casing: seq<CasingSection>,
                                   pressure: Option<real>, temperature: Option<real>)

  /** The extractors run on one chunk, in the order of the loop; the first exception wins. */
  function ChunkFindsOf(m: ChunkMatches): Result<ChunkFinds>
  {
    var casing := CasingFromText(m);
    var pressure := ExtractPressure(m);
    var temperature := ExtractTemperature(m);
    if casing.Err? then Err(casing.error)
    else if pressure.Err? then Err(pressure.error)
    else if temperature.Err? then Err(temperature.error)
    else
      Ok(ChunkFinds(TrajectoryFromText(m), casing.value,
                    if pressure.value.Some? then Some(pressure.value.value.bar) else None,
                    temperature.value))
  }

  /** The fields of WellParameters the chunk loop fills. */
  datatype Found = Found(trajectory: seq<TrajectoryPoint>, casing: seq<CasingSection>,
                         pressure: Option<real>, temperature: Option<real>)

  /** A temperature Python finds truthy: present and not 0.0. */
  predicate Truthy(t: Option<real>) { t.Some? && t.value != 0.0 }

  /** One pass of the chunk loop: the lists are extended; the pressure and temperature are set
      only while still unset, the temperature only by a truthy reading. */
  function Absorbed(f: Found, c: ChunkFinds): Found
  {
    Found(f.trajectory + c.trajectory, f.casing + c.casing,
          if c.pressure.Some? && f.pressure.None? then c.pressure else f.pressure,
          if Truthy(c.temperature) && f.temperature.None? then c.temperature else f.temperature)
  }

  /** The chunk loop over the outcomes of the chunks, in order. */
  function ScanFinds(outcomes: seq<Result<ChunkFinds>>): Result<Found>
  {
    if outcomes == [] then Ok(Found([], [], None, None))
    else
      var prefix := ScanFinds(outcomes[..|outcomes| - 1]);
      var last := outcomes[|outcomes| - 1];
      if prefix.Err? then prefix
      else if last.Err? then Err(last.error)
      else Ok(Absorbed(prefix.value, last.value))
  }

  function OutcomesOf(chunks: seq<ChunkMatches>): seq<Result<ChunkFinds>>
  {
    seq(|chunks|, i requires 0 <= i < |chunks| => ChunkFindsOf(chunks[i]))
  }

  /** What extract_from_chunks collects from a list of chunks. */
  function Scan(chunks: seq<ChunkMatches>): Result<Found>
  {
    ScanFinds(OutcomesOf(chunks))
  }

  /** A chunk fails exactly when its casing has a zero denominator or a unit is unknown. */
  lemma ChunkFailsIff(m: ChunkMatches)
    ensures ChunkFindsOf(m).Err? ==>
              (exists k :: 0 <= k < |m.fractional| && m.fractional[k].denominator == 0) ||
              (m.pressure.Some? && !UnitConverter.KnownPressureKey(UnitConverter.UnitKey(m.pressure.value.unit))) ||
              (m.temperature.Some? && !UnitConverter.KnownTemperatureKey(UnitConverter.UnitKey(m.temperature.value.unit)))
    ensures ((exists k :: 0 <= k < |m.fractional| && m.fractional[k].denominator == 0) ||
             (m.pressure.Some? && !UnitConverter.KnownPressureKey(UnitConverter.UnitKey(m.pressure.value.unit))) ||
             (m.temperature.Some? && !UnitConverter.KnownTemperatureKey(UnitConverter.UnitKey(m.temperature.value.unit)))) ==>
              ChunkFindsOf(m).Err?
  {
    CasingFromTextSpec(m);
    ExtractPressureSpec(m);
    ExtractTemperatureSpec(m);
  }

  /** The extraction fails exactly when some chunk fails. */
  lemma {:induction false} ScanFails(outcomes: seq<Result<ChunkFinds>>)
    ensures ScanFinds(outcomes).Err? ==> exists k :: 0 <= k < |outcomes| && outcomes[k].Err?
    ensures (exists k :: 0 <= k < |outcomes| && outcomes[k].Err?) ==> ScanFinds(outcomes).Err?
    decreases |outcomes|
  {
    if outcomes != [] {
      var prefix := outcomes[..|outcomes| - 1];
      ScanFails(prefix);
      if k :| 0 <= k < |prefix| && prefix[k].Err? {
        assert outcomes[k] == prefix[k];
      }
      if k :| 0 <= k < |outcomes| && outcomes[k].Err? {
        if k < |prefix| {
          assert prefix[k] == outcomes[k];
        }
      }
    }
  }

  /** The trajectory of each chunk, in chunk order. */
  function TrajectoryParts(outcomes: seq<Result<ChunkFinds>>): seq<seq<TrajectoryPoint>>
  {
    seq(|outcomes|, i requires 0 <= i < |outcomes| => if outcomes[i].Ok? then outcomes[i].value.trajectory else [])
  }

  /** The casing of each chunk, in chunk order. */
  function CasingParts(outcomes: seq<Result<ChunkFinds>>): seq<seq<CasingSection>>
  {
    seq(|outcomes|, i requires 0 <= i < |outcomes| => if outcomes[i].Ok? then outcomes[i].value.casing else [])
  }

  /** The trajectory and casing lists are every chunk's own, concatenated in chunk order. */
  lemma {:induction false} ScanLists(outcomes: seq<Result<ChunkFinds>>)
    requires ScanFinds(outcomes).Ok?
    ensures ScanFinds(outcomes).value.trajectory == Flatten(TrajectoryParts(outcomes))
    ensures ScanFinds(outcomes).value.casing == Flatten(CasingParts(outcomes))
    decreases |outcomes|
  {
    if outcomes != [] {
      var prefix := outcomes[..|outcomes| - 1];
      ScanLists(prefix);
      assert TrajectoryParts(outcomes)[..|prefix|] == TrajectoryParts(prefix);
      assert CasingParts(outcomes)[..|prefix|] == CasingParts(prefix);
    }
  }

  predicate HasPressure(c: Result<ChunkFinds>) { c.Ok? && c.value.pressure.Some? }

  /** Chunk k is the first with a pressure reading. */
  predicate FirstPressureAt(outcomes: seq<Result<ChunkFinds>>, k: int)
  {
    0 <= k < |outcomes| && HasPressure(outcomes[k]) && forall j :: 0 <= j < k ==> !HasPressure(outcomes[j])
  }

  /** The reservoir pressure is the first pressure found, whatever its context: a wellhead or
      static pressure in an earlier chunk wins over a reservoir pressure in a later one. */
  lemma {:induction false} FirstPressureWins(outcomes: seq<Result<ChunkFinds>>)
    requires ScanFinds(outcomes).Ok?
    ensures ScanFinds(outcomes).value.pressure.None? ==> forall k :: 0 <= k < |outcomes| ==> !HasPressure(outcomes[k])
    ensures ScanFinds(outcomes).value.pressure.Some? ==>
              exists k :: FirstPressureAt(outcomes, k) && ScanFinds(outcomes).value.pressure == outcomes[k].value.pressure
    decreases |outcomes|
  {
    if outcomes != [] {
      var prefix := outcomes[..|outcomes| - 1];
      var n := |prefix|;
      FirstPressureWins(prefix);
      var before := ScanFinds(prefix).value.pressure;
      if before.None? {
        forall k | 0 <= k < n ensures !HasPressure(outcomes[k]) {
          assert outcomes[k] == prefix[k];
        }
        if HasPressure(outcomes[n]) {
          assert FirstPressureAt(outcomes, n);
        }
      } else {
        var k :| FirstPressureAt(prefix, k) && before == prefix[k].value.pressure;
        forall j | 0 <= j < k ensures !HasPressure(outcomes[j]) {
          assert outcomes[j] == prefix[j];
        }
        assert outcomes[k] == prefix[k];
        assert FirstPressureAt(outcomes, k);
      }
    }
  }

  predicate HasTemperature(c: Result<ChunkFinds>) { c.Ok? && Truthy(c.value.temperature) }

  /** Chunk k is the first with a truthy temperature. */
  predicate FirstTemperatureAt(outcomes: seq<Result<ChunkFinds>>, k: int)
  {
    0 <= k < |outcomes| && HasTemperature(outcomes[k]) && forall j :: 0 <= j < k ==> !HasTemperature(outcomes[j])
  }

  /** The reservoir temperature is the first nonzero temperature found; a reading of 0 °C is
      skipped as if absent. */
  lemma {:induction false} FirstTemperatureWins(outcomes: seq<Result<ChunkFinds>>)
    requires ScanFinds(outcomes).Ok?
    ensures ScanFinds(outcomes).value.temperature.None? ==> forall k :: 0 <= k < |outcomes| ==> !HasTemperature(outcomes[k])
    ensures ScanFinds(outcomes).value.temperature.Some? ==>
              exists k :: FirstTemperatureAt(outcomes, k) && ScanFinds(outcomes).value.temperature == outcomes[k].value.temperature
    decreases |outcomes|
  {
    if outcomes != [] {
      var prefix := outcomes[..|outcomes| - 1];
      var n := |prefix|;
      FirstTemperatureWins(prefix);
      var before := ScanFinds(prefix).value.temperature;
      if before.None? {
        forall k | 0 <= k < n ensures !HasTemperature(outcomes[k]) {
          assert outcomes[k] == prefix[k];
        }
        if HasTemperature(outcomes[n]) {
          assert FirstTemperatureAt(outcomes, n);
        }
      } else {
        var k :| FirstTemperatureAt(prefix, k) && before == prefix[k].value.temperature;
        forall j | 0 <= j < k ensures !HasTemperature(outcomes[j]) {
          assert outcomes[j] == prefix[j];
        }
        assert outcomes[k] == prefix[k];
        assert FirstTemperatureAt(outcomes, k);
      }
    }
  }

  /** The survey passed to validate_trajectory_sequence: md, tvd and inclination of each point. */
  function SurveyOf(trajectory: seq<TrajectoryPoint>): seq<Validators.SurveyPoint>
  {
    seq(|trajectory|, i requires 0 <= i < |trajectory| =>
      Validators.SurveyPoint(Some(trajectory[i].md), Some(trajectory[i].tvd), trajectory[i].inclination))
  }

  /** The WellParameters dataclass, filled in place by extract_from_chunks. */
  class WellParameters {
    var wellName: Option<string>
    var trajectory: seq<TrajectoryPoint>
    var casing: seq<CasingSection>
    var reservoirPressure: Option<real>         // bar
    var reservoirTemperature: Option<real>      // degrees Celsius
    var fluidProperties: map<string, real>
    var validationResults: seq<Validators.ValidationResult>

    constructor()
      ensures wellName.None? && trajectory == [] && casing == []
      ensures reservoirPressure.None? && reservoirTemperature.None?
      ensures fluidProperties == map[] && validationResults == []
    {
      wellName := None;
      trajectory := [];
      casing := [];
      reservoirPressure := None;
      reservoirTemperature := None;
      fluidProperties := map[];
      validationResults := [];
    }

    /** The fields the chunk loop fills. */
    function Snapshot(): Found
      reads this
    {
      Found(trajectory, casing, reservoirPressure, reservoirTemperature)
    }

    /** The updates of one pass of the chunk loop. */
    method Absorb(c: ChunkFinds)
      modifies this
      ensures Snapshot() == Absorbed(old(Snapshot()), c)
      ensures wellName == old(wellName) && fluidProperties == old(fluidProperties)
      ensures validationResults == old(validationResults)
    {
      trajectory := trajectory + c.trajectory;
      casing := casing + c.casing;
      if c.pressure.Some? && reservoirPressure.None? {
        reservoirPressure := c.pressure;
      }
      if c.temperature.Some? && c.temperature.value != 0.0 && reservoirTemperature.None? {
        reservoirTemperature := c.temperature;
      }
    }
  }

  /** The four extractors on one chunk. */
  method ReadChunk(m: ChunkMatches) returns (r: Result<ChunkFinds>)
    ensures r == ChunkFindsOf(m)
  {
    var points := ExtractTrajectoryFromText(m);
    var sections := ExtractCasingFromText(m);
    if sections.Err? {
      return Err(sections.error);
    }
    var pressure := ExtractPressure(m);
    if pressure.Err? {
      return Err(pressure.error);
    }
    var temperature := ExtractTemperature(m);
    if temperature.Err? {
      return Err(temperature.error);
    }
    var bar := if pressure.value.Some? then Some(pressure.value.value.bar) else None;
    r := Ok(ChunkFinds(points, sections.value, bar, temperature.value));
  }

  /** extract_from_chunks: the chunk loop, then a trajectory validation when any point was
      found. An exception raised for any chunk ends the extraction. */
  method ExtractFromChunks(chunks: seq<ChunkMatches>) returns (r: Result<WellParameters>)
    ensures r.Err? <==> Scan(chunks).Err?
    ensures r.Ok? ==> fresh(r.value) && r.value.Snapshot() == Scan(chunks).value
    ensures r.Ok? ==> r.value.wellName.None? && r.value.fluidProperties == map[]
    ensures r.Ok? ==> (r.value.validationResults == [] <==> r.value.trajectory == [])
    ensures r.Ok? && r.value.trajectory != [] ==>
              |r.value.validationResults| == 1 &&
              var v := r.value.validationResults[0];
              var s := Validators.SortedSurvey(SurveyOf(r.value.trajectory));
              v.errors == Validators.PointPhaseErrors(s, |s|) + Validators.PairErrors(s, |s|) &&
              v.warnings == Validators.PointPhaseWarnings(s, |s|) + Validators.PairWarnings(s, |s|) &&
              (v.isValid <==> v.errors == []) && v.confidence == Validators.SequenceConf(s) &&
              0.0 <= v.confidence <= 1.0
  {
    r := ScanChunks(chunks);
    if r.Ok? && r.value.trajectory != [] {
      var params := r.value;
      var validation := Validators.ValidateTrajectorySequence(SurveyOf(params.trajectory));
      params.validationResults := params.validationResults + [validation];
    }
  }

  /** The chunk loop of extract_from_chunks. */
  method ScanChunks(chunks: seq<ChunkMatches>) returns (r: Result<WellParameters>)
    ensures r.Err? <==> Scan(chunks).Err?
    ensures r.Ok? ==> fresh(r.value) && r.value.Snapshot() == Scan(chunks).value
    ensures r.Ok? ==> r.value.wellName.None? && r.value.fluidProperties == map[] && r.value.validationResults == []
  {
    var params := new WellParameters();
    ghost var outcomes := OutcomesOf(chunks);
    var i := 0;
    while i < |chunks|
      invariant 0 <= i <= |chunks|
      invariant ScanFinds(outcomes[..i]) == Ok(params.Snapshot())
      invariant params.wellName.None? && params.fluidProperties == map[] && params.validationResults == []
    {
      var outcome := ReadChunk(chunks[i]);
      ScanStep(outcomes, i);
      if outcome.Err? {
        return Err(outcome.error);
      }
      params.Absorb(outcome.value);
      i := i + 1;
    }
    assert outcomes[..|chunks|] == outcomes;
    r := Ok(params);
  }

  /** One step of the chunk loop on a prefix that has not failed. */
  lemma ScanStep(outcomes: seq<Result<ChunkFinds>>, i: int)
    requires 0 <= i < |outcomes| && ScanFinds(outcomes[..i]).Ok?
    ensures outcomes[i].Err? ==> ScanFinds(outcomes).Err?
    ensures outcomes[i].Ok? ==> ScanFinds(outcomes[..i + 1]) == Ok(Absorbed(ScanFinds(outcomes[..i]).value, outcomes[i].value))
  {
    assert outcomes[..i + 1][..i] == outcomes[..i];
    if outcomes[i].Err? {
      FailureSpreads(outcomes, i);
    }
  }

  /** A failing chunk makes the whole extraction fail. */
  lemma FailureSpreads(outcomes: seq<Result<ChunkFinds>>, i: int)
    requires 0 <= i < |outcomes| && outcomes[i].Err?
    ensures ScanFinds(outcomes).Err?
  {
    ScanFails(outcomes);
  }
}

/** utils/unit_converter.py: the UnitConverter class of the LLM-assisted pipeline. Its methods
    are static or class methods over class constants, so they are functions here. */
module UnitConverter {
  import opened Common
  import opened Text

  const MetersToFeetFactor: real := 3.28084
  const FeetToMetersFactor: real := 0.3048
  const InchesToMetersFactor: real := 0.0254
  const MetersToInchesFactor: real := 39.3701
  const BarToPsiFactor: real := 14.5038
  const PsiToBarFactor: real := 0.068948
  const KpaToBarFactor: real := 0.01
  const MpaToBarFactor: real := 10.0

  // ---------------------------------------------------------------- parse_fractional_inch

  /** The numbers captured by `(\d+)\s+(\d+)/(\d+)`. */
  datatype MixedMatch = MixedMatch(whole: nat, numerator: nat, denominator: nat)

  /** re.match(r'(\d+)\s+(\d+)/(\d+)', s): anchored at the start only. Every run is greedy and
      no shorter run can let the rest match, so a single left-to-right scan decides the match. */
  function MatchMixedFraction(s: string): Option<MixedMatch>
  {
    var a := DigitRun(s);
    if a == 0 then None else MatchAfterWhole(DigitsValue(s[..a]), s[a..])
  }

  /** `\s+(\d+)/(\d+)` after the whole number w. */
  function MatchAfterWhole(w: nat, s: string): Option<MixedMatch>
  {
    var b := SpaceRun(s);
    if b == 0 then None else MatchFraction(w, s[b..])
  }

  /** `(\d+)/(\d+)` after the whole number w and the blank. */
  function MatchFraction(w: nat, s: string): Option<MixedMatch>
  {
    var c := DigitRun(s);
    if c == 0 || c == |s| || s[c] != '/' then None else MatchDenominator(w, DigitsValue(s[..c]), s[c + 1..])
  }

  /** `(\d+)` after "W N/". */
  function MatchDenominator(w: nat, n: nat, s: string): Option<MixedMatch>
  {
    var e := DigitRun(s);
    if e == 0 then None else Some(MixedMatch(w, n, DigitsValue(s[..e])))
  }

  /** `inch_str.strip().replace('"', '').replace('inch', '').strip()`. */
  function CleanInch(s: string): string
  {
    Strip(RemoveWord(RemoveChar(Strip(s), '"'), "inch"))
  }

  /** parse_fractional_inch: a leading "W N/D" gives W + N/D (a zero denominator raises a
      division error), otherwise float() of the cleaned text or a ValueError. */
  function ParseFractionalInch(s: string): Result<real>
  {
    var t := CleanInch(s);
    var m := MatchMixedFraction(t);
    if m.Some? then
      if m.value.denominator == 0 then Err(ZeroDivision)
      else Ok(MixedInches(m.value))
    else FloatOrErr(t)
  }

  /** W + N/D for a match with a non-zero denominator. */
  function MixedInches(m: MixedMatch): real
    requires m.denominator != 0
  {
    m.whole as real + m.numerator as real / m.denominator as real
  }

  /** 13 3/8 is 13.375. */
  lemma MixedInchesExample(m: MixedMatch)
    requires m == MixedMatch(13, 3, 8)
    ensures MixedInches(m) == 13.375
  {
  }

  // -------- lemmas about the parser

  /** The text "W N/D". */
  function MixedText(w: nat, n: nat, d: nat): string {
    ShowNat(w) + " " + ShowNat(n) + "/" + ShowNat(d)
  }

  lemma DigitRunWhole(a: string, rest: string)
    requires a != [] && AllDigits(a) && (rest == [] || !IsDigit(rest[0]))
    ensures DigitRun(a + rest) == |a| && (a + rest)[..|a|] == a && (a + rest)[|a|..] == rest
  {
    DigitRunPrefix(a, rest);
  }

  lemma MatchDenominatorOf(w: nat, n: nat, c: string, rest: string)
    requires c != [] && AllDigits(c) && (rest == [] || !IsDigit(rest[0]))
    ensures MatchDenominator(w, n, c + rest) == Some(MixedMatch(w, n, DigitsValue(c)))
  {
    DigitRunWhole(c, rest);
  }

  lemma MatchFractionOf(w: nat, b: string, c: string, rest: string)
    requires b != [] && AllDigits(b) && c != [] && AllDigits(c) && (rest == [] || !IsDigit(rest[0]))
    ensures MatchFraction(w, b + "/" + c + rest) == Some(MixedMatch(w, DigitsValue(b), DigitsValue(c)))
  {
    var tail := "/" + c + rest;
    var s := b + tail;
    assert b + "/" + c + rest == s;
    DigitRunWhole(b, tail);
    assert s[|b|..] == tail;
    assert tail[1..] == c + rest;
    MatchFractionAt(w, s, |b|);
    assert s[..|b|] == b;
    assert s[|b| + 1..] == c + rest;
    assert MatchFraction(w, s) == MatchDenominator(w, DigitsValue(b), c + rest);
    MatchDenominatorOf(w, DigitsValue(b), c, rest);
  }

  lemma MatchFractionAt(w: nat, s: string, k: nat)
    requires 0 < k < |s| && DigitRun(s) == k && s[k] == '/'
    ensures MatchFraction(w, s) == MatchDenominator(w, DigitsValue(s[..k]), s[k + 1..])
  {
  }

  lemma MatchAfterWholeOf(w: nat, b: string, c: string, rest: string)
    requires b != [] && AllDigits(b) && c != [] && AllDigits(c) && (rest == [] || !IsDigit(rest[0]))
    ensures MatchAfterWhole(w, " " + b + "/" + c + rest) == Some(MixedMatch(w, DigitsValue(b), DigitsValue(c)))
  {
    var u := b + "/" + c + rest;
    assert " " + b + "/" + c + rest == " " + u;
    assert u[0] == b[0];
    MatchAfterBlank(w, u);
    MatchFractionOf(w, b, c, rest);
  }

  /** A single blank is consumed, then the fraction is matched. */
  lemma MatchAfterBlank(w: nat, u: string)
    requires u != [] && !IsSpace(u[0])
    ensures MatchAfterWhole(w, " " + u) == MatchFraction(w, u)
  {
    var s := " " + u;
    assert s[1..] == u;
    assert SpaceRun(u) == 0;
  }

  /** The digit strings of a well-formed "W N/D" are captured as W, N and D. */
  lemma MatchMixedOf(a: string, b: string, c: string, rest: string)
    requires a != [] && AllDigits(a) && b != [] && AllDigits(b) && c != [] && AllDigits(c)
    requires rest == [] || !IsDigit(rest[0])
    ensures MatchMixedFraction(a + " " + b + "/" + c + rest)
         == Some(MixedMatch(DigitsValue(a), DigitsValue(b), DigitsValue(c)))
  {
    var t1 := " " + b;
    var t2 := t1 + "/";
    var t3 := t2 + c;
    var tail := t3 + rest;
    AppendAssoc(a, " ", b);
    AppendAssoc(a, t1, "/");
    AppendAssoc(a, t2, c);
    AppendAssoc(a, t3, rest);
    MatchWholeThen(a, tail);
    MatchAfterWholeOf(DigitsValue(a), b, c, rest);
  }

  /** After a maximal run of digits a the match continues on what follows. */
  lemma MatchWholeThen(a: string, tail: string)
    requires a != [] && AllDigits(a) && (tail == [] || !IsDigit(tail[0]))
    ensures MatchMixedFraction(a + tail) == MatchAfterWhole(DigitsValue(a), tail)
  {
    DigitRunWhole(a, tail);
  }

  lemma MatchMixedText(w: nat, n: nat, d: nat, rest: string)
    requires rest == [] || !IsDigit(rest[0])
    ensures MatchMixedFraction(MixedText(w, n, d) + rest) == Some(MixedMatch(w, n, d))
  {
    MatchMixedOf(ShowNat(w), ShowNat(n), ShowNat(d), rest);
    DigitsValueShowNat(w);
    DigitsValueShowNat(n);
    DigitsValueShowNat(d);
  }

  lemma MatchBareFraction(n: nat, d: nat)
    ensures MatchMixedFraction(ShowNat(n) + "/" + ShowNat(d)) == None
  {
    MatchDigitsSlash(ShowNat(n), ShowNat(d));
  }

  /** "N/D" has no blank after its first number, so it is not a mixed fraction. */
  lemma MatchDigitsSlash(b: string, c: string)
    requires b != [] && AllDigits(b)
    ensures MatchMixedFraction(b + "/" + c) == None
  {
    var r := "/" + c;
    assert b + "/" + c == b + r;
    MatchWholeThen(b, r);
    assert SpaceRun(r) == 0;
  }

  lemma MixedTextShape(w: nat, n: nat, d: nat)
    ensures MixedText(w, n, d) != [] && !IsSpace(MixedText(w, n, d)[0])
    ensures !IsSpace(MixedText(w, n, d)[|MixedText(w, n, d)| - 1])
    ensures '"' !in MixedText(w, n, d) && 'i' !in MixedText(w, n, d)
  {
    var a, b, c := ShowNat(w), ShowNat(n), ShowNat(d);
    var s := MixedText(w, n, d);
    AllDigitsNoSpace(a);
    AllDigitsNoSpace(c);
    forall i | 0 <= i < |s| ensures s[i] != '"' && s[i] != 'i' {
      if i < |a| { assert s[i] == a[i]; }
      else if |a| + 1 <= i < |a| + 1 + |b| { assert s[i] == b[i - |a| - 1]; }
      else if i > |a| + 1 + |b| { assert s[i] == c[i - |a| - 2 - |b|]; }
    }
    assert s[0] == a[0] && s[|s| - 1] == c[|c| - 1];
  }

  /** "W N/D" gives W + N/D; a zero denominator raises a division error. */
  lemma ParseMixed(w: nat, n: nat, d: nat)
    ensures ParseFractionalInch(MixedText(w, n, d))
         == if d == 0 then Err(ZeroDivision) else Ok(MixedInches(MixedMatch(w, n, d)))
  {
    var s := MixedText(w, n, d);
    MixedTextShape(w, n, d);
    StripNoEdgeSpace(s);
    RemoveCharAbsent(s, '"');
    RemoveWordAbsent(s, "inch");
    assert CleanInch(s) == s;
    MatchMixedText(w, n, d, []);
    assert s + [] == s;
    ParseMatched(s, MixedMatch(w, n, d));
  }

  lemma ParseMatched(s: string, m: MixedMatch)
    requires MatchMixedFraction(CleanInch(s)) == Some(m)
    ensures ParseFractionalInch(s) == if m.denominator == 0 then Err(ZeroDivision) else Ok(MixedInches(m))
  {
  }

  /** A trailing " inch" is removed before matching, so "W N/D inch" reads as W + N/D. */
  lemma ParseMixedInchWord(w: nat, n: nat, d: nat)
    ensures ParseFractionalInch(MixedText(w, n, d) + " inch")
         == if d == 0 then Err(ZeroDivision) else Ok(MixedInches(MixedMatch(w, n, d)))
  {
    var s := MixedText(w, n, d);
    InchWordClean(w, n, d);
    MatchMixedText(w, n, d, []);
    assert s + [] == s;
    ParseMatched(s + " inch", MixedMatch(w, n, d));
  }

  /** CleanInch drops the trailing " inch" of "W N/D inch". */
  lemma InchWordClean(w: nat, n: nat, d: nat)
    ensures CleanInch(MixedText(w, n, d) + " inch") == MixedText(w, n, d)
  {
    var s := MixedText(w, n, d);
    var t := s + " inch";
    MixedTextShape(w, n, d);
    assert t[0] == s[0] && t[|t| - 1] == 'h';
    StripNoEdgeSpace(t);
    assert '"' !in t;
    RemoveCharAbsent(t, '"');
    assert t == (s + " ") + "inch";
    RemoveWordSkip(s + " ", "inch", "inch");
    assert RemoveWord("inch", "inch") == [];
    assert s + " " + [] == s + " ";
    assert Strip(s + " ") == s by {
      var u := s + " ";
      assert TrimLeft(u) == u;
      assert u[..|u| - 1] == s;
      assert TrimRight(u) == TrimRight(s);
    }
  }

  /** Unlike parse_fractional_inches, a bare fraction "N/D" is rejected. */
  lemma ParseBareFractionRejected(n: nat, d: nat)
    ensures ParseFractionalInch(ShowNat(n) + "/" + ShowNat(d)) == Err(MalformedNumber)
  {
    var s := ShowNat(n) + "/" + ShowNat(d);
    BareFractionClean(n, d);
    MatchBareFraction(n, d);
    SlashRejected(s);
    ParseUnmatched(s);
  }

  /** Text that does not start with "W N/D" is left to float(). */
  lemma ParseUnmatched(s: string)
    requires MatchMixedFraction(CleanInch(s)).None?
    ensures ParseFractionalInch(s) == FloatOrErr(CleanInch(s))
  {
  }

  /** A bare fraction has nothing for CleanInch to remove. */
  lemma BareFractionClean(n: nat, d: nat)
    ensures CleanInch(ShowNat(n) + "/" + ShowNat(d)) == ShowNat(n) + "/" + ShowNat(d)
    ensures '/' in ShowNat(n) + "/" + ShowNat(d)
  {
    FractionDigitsClean(ShowNat(n), ShowNat(d));
  }

  lemma FractionDigitsClean(b: string, c: string)
    requires b != [] && AllDigits(b) && c != [] && AllDigits(c)
    ensures CleanInch(b + "/" + c) == b + "/" + c && '/' in b + "/" + c
  {
    var s := b + "/" + c;
    forall i | 0 <= i < |s| ensures s[i] != '"' && s[i] != 'i' && (i != |b| ==> IsDigit(s[i])) {
      if i < |b| { assert s[i] == b[i]; }
      else if i > |b| { assert s[i] == c[i - |b| - 1]; }
    }
    assert s[|b|] == '/';
    CleanInchUnchanged(s);
  }

  /** Text without edge whitespace, quote or letter i is left alone by CleanInch. */
  lemma CleanInchUnchanged(s: string)
    requires s != [] && !IsSpace(s[0]) && !IsSpace(s[|s| - 1])
    requires forall i :: 0 <= i < |s| ==> s[i] != '"' && s[i] != 'i'
    ensures CleanInch(s) == s
  {
    StripNoEdgeSpace(s);
    RemoveCharAbsent(s, '"');
    assert "inch"[0] !in s;
    RemoveWordAbsent(s, "inch");
  }

  /** A whole number of inches parses to itself. */
  lemma ParseWhole(n: nat)
    ensures ParseFractionalInch(ShowNat(n)) == Ok(n as real)
  {
    var s := ShowNat(n);
    AllDigitsNoSpace(s);
    StripNoEdgeSpace(s);
    RemoveCharAbsent(s, '"');
    forall i | 0 <= i < |s| ensures s[i] != 'i' { assert IsDigit(s[i]); }
    RemoveWordAbsent(s, "inch");
    assert MatchMixedFraction(s) == None by {
      assert s == s + [];
      DigitRunPrefix(s, []);
      assert s[|s|..] == [];
    }
    ParseFloatShowNat(n);
  }

  // ---------------------------------------------------------------- conversions

  /** inch_to_meter accepts a number or a text to be parsed first. */
  datatype InchValue = Number(inches: real) | Text(text: string)

  function InchToMeter(v: InchValue): Result<real>
  {
    match v
    case Number(x) => Ok(x * InchesToMetersFactor)
    case Text(s) =>
      var p := ParseFractionalInch(s);
      if p.Err? then Err(p.error) else Ok(p.value * InchesToMetersFactor)
  }

  /** A text is converted exactly as the number it parses to. */
  lemma InchToMeterTextAgrees(s: string, x: real)
    requires ParseFractionalInch(s) == Ok(x)
    ensures InchToMeter(Text(s)).Ok? && InchToMeter(Text(s)).value == InchToMeter(Number(x)).value
  {
  }

  /** Parse errors of the text form propagate unchanged. */
  lemma InchToMeterTextError(s: string)
    requires ParseFractionalInch(s).Err?
    ensures InchToMeter(Text(s)) == Err(ParseFractionalInch(s).error)
  {
  }

  function MeterToInch(m: real): real { m * MetersToInchesFactor }

  function FeetToMeter(f: real): real { f * FeetToMetersFactor }

  function MeterToFeet(m: real): real { m * MetersToFeetFactor }

  function PsiToBar(psi: real): real { psi * PsiToBarFactor }

  function BarToPsi(bar: real): real { bar * BarToPsiFactor }

  function KpaToBar(kpa: real): real { kpa * KpaToBarFactor }

  function MpaToBar(mpa: real): real { mpa * MpaToBarFactor }

  function CelsiusToFahrenheit(c: real): real { c * 1.8 + 32.0 }

  function FahrenheitToCelsius(f: real): real { (f - 32.0) / 1.8 }

  /** The inch factors are not reciprocal: a round trip scales by 1.00000054, so it is the
      identity only at zero, and its error is below a millionth of the value. */
  lemma InchRoundTripApproximate(x: real)
    ensures MeterToInch(InchToMeter(Number(x)).value) == x * 1.00000054
    ensures x != 0.0 ==> MeterToInch(InchToMeter(Number(x)).value) != x
    ensures -0.000001 * Abs(x) <= MeterToInch(InchToMeter(Number(x)).value) - x <= 0.000001 * Abs(x)
  {
  }

  /** The pressure factors are not reciprocal either: bar to psi and back scales by 1.0000080024. */
  lemma PressureRoundTripApproximate(x: real)
    ensures PsiToBar(BarToPsi(x)) == x * 1.0000080024
    ensures x != 0.0 ==> PsiToBar(BarToPsi(x)) != x
    ensures -0.00001 * Abs(x) <= PsiToBar(BarToPsi(x)) - x <= 0.00001 * Abs(x)
  {
  }

  /** Feet to metres and back scales by 1.000000032. */
  lemma FeetRoundTripApproximate(x: real)
    ensures MeterToFeet(FeetToMeter(x)) == x * 1.000000032
  {
  }

  /** Celsius to Fahrenheit and back is exact in both directions, e.g. 0 and 32, 100 and 212. */
  lemma TemperatureRoundTrip(x: real)
    ensures FahrenheitToCelsius(CelsiusToFahrenheit(x)) == x
    ensures CelsiusToFahrenheit(FahrenheitToCelsius(x)) == x
    ensures CelsiusToFahrenheit(0.0) == 32.0 && CelsiusToFahrenheit(100.0) == 212.0
  {
  }

  // ---------------------------------------------------------------- normalisation

  /** The unit key compared by normalize_pressure and normalize_temperature. */
  function UnitKey(unit: string): string { Strip(Lower(unit)) }

  /** normalize_pressure: the value in bar, or an unknown-unit error. */
  function NormalizePressure(value: real, unit: string): Result<real>
  {
    PressureByKey(value, UnitKey(unit))
  }

  /** The conversion chosen by the unit key u. */
  function PressureByKey(value: real, u: string): Result<real>
  {
    if u == "bar" || u == "bars" then Ok(value)
    else if u == "psi" || u == "pound per square inch" then Ok(PsiToBar(value))
    else if u == "kpa" || u == "kilopascal" then Ok(KpaToBar(value))
    else if u == "mpa" || u == "megapascal" then Ok(MpaToBar(value))
    else Err(UnknownPressureUnit)
  }

  /** normalize_temperature: the value in degrees Celsius, or an unknown-unit error. */
  function NormalizeTemperature(value: real, unit: string): Result<real>
  {
    TemperatureByKey(value, UnitKey(unit))
  }

  /** The conversion chosen by the unit key u. */
  function TemperatureByKey(value: real, u: string): Result<real>
  {
    if u == "c" || u == "celsius" || u == "°c" then Ok(value)
    else if u == "f" || u == "fahrenheit" || u == "°f" then Ok(FahrenheitToCelsius(value))
    else Err(UnknownTemperatureUnit)
  }

  /** The accepted pressure unit keys. */
  predicate KnownPressureKey(u: string) {
    u in {"bar", "bars", "psi", "pound per square inch", "kpa", "kilopascal", "mpa", "megapascal"}
  }

  /** The accepted temperature unit keys. */
  predicate KnownTemperatureKey(u: string) {
    u in {"c", "celsius", "°c", "f", "fahrenheit", "°f"}
  }

  /** Pressure normalisation fails exactly on the unknown units. */
  lemma NormalizePressureSpec(value: real, unit: string)
    ensures NormalizePressure(value, unit).Ok? <==> KnownPressureKey(UnitKey(unit))
  {
    PressureKeysSpec(value, UnitKey(unit));
  }

  lemma PressureKeysSpec(value: real, u: string)
    ensures PressureByKey(value, u).Ok? <==> KnownPressureKey(u)
  {
  }

  lemma KpaInverse(v: real) ensures KpaToBar(v * 100.0) == v {}

  lemma MpaInverse(v: real) ensures MpaToBar(v / 10.0) == v {}

  /** Normalising undoes the conversion from bar into each unit: a value given in kPa, MPa or
      bar comes back unchanged, and one given in psi is off by the rounding of the two
      factors. */
  lemma NormalizePressureInverts(value: real, unit: string)
    ensures UnitKey(unit) == "kpa" ==> NormalizePressure(value * 100.0, unit) == Ok(value)
    ensures UnitKey(unit) == "mpa" ==> NormalizePressure(value / 10.0, unit) == Ok(value)
    ensures UnitKey(unit) == "bar" ==> NormalizePressure(value, unit) == Ok(value)
    ensures UnitKey(unit) == "psi" ==> NormalizePressure(BarToPsi(value), unit) == Ok(value * 1.0000080024)
  {
    PressureKeysInvert(value);
  }

  /** The same on the unit keys themselves. */
  lemma PressureKeysInvert(value: real)
    ensures PressureByKey(value * 100.0, "kpa") == Ok(value)
    ensures PressureByKey(value / 10.0, "mpa") == Ok(value)
    ensures PressureByKey(value, "bar") == Ok(value)
    ensures PressureByKey(BarToPsi(value), "psi") == Ok(value * 1.0000080024)
  {
    PressureKeys(value * 100.0);
    KpaInverse(value);
    PressureKeys(value / 10.0);
    MpaInverse(value);
    PressureKeys(BarToPsi(value));
    PressureRoundTripApproximate(value);
  }

  /** The conversion each of the short pressure keys selects. */
  lemma PressureKeys(v: real)
    ensures PressureByKey(v, "kpa") == Ok(KpaToBar(v))
    ensures PressureByKey(v, "mpa") == Ok(MpaToBar(v))
    ensures PressureByKey(v, "psi") == Ok(PsiToBar(v))
  {
  }

  /** Temperature normalisation fails exactly on the unknown units and undoes the
      Celsius-to-Fahrenheit conversion. */
  lemma NormalizeTemperatureSpec(value: real, unit: string)
    ensures NormalizeTemperature(value, unit).Ok? <==> KnownTemperatureKey(UnitKey(unit))
    ensures UnitKey(unit) == "f" ==> NormalizeTemperature(CelsiusToFahrenheit(value), unit) == Ok(value)
    ensures UnitKey(unit) == "c" ==> NormalizeTemperature(value, unit) == Ok(value)
  {
    TemperatureKeysSpec(value, UnitKey(unit));
    TemperatureKeysInvert(value);
  }

  lemma TemperatureKeysSpec(value: real, u: string)
    ensures TemperatureByKey(value, u).Ok? <==> KnownTemperatureKey(u)
  {
  }

  lemma TemperatureKeysInvert(value: real)
    ensures TemperatureByKey(CelsiusToFahrenheit(value), "f") == Ok(value)
    ensures TemperatureByKey(value, "c") == Ok(value)
  {
    TemperatureRoundTrip(value);
  }

  /** Unit names are compared without regard to case. */
  lemma NormalizeIgnoresCase(value: real, unit: string)
    ensures NormalizePressure(value, Upper(unit)) == NormalizePressure(value, unit)
    ensures NormalizeTemperature(value, Upper(unit)) == NormalizeTemperature(value, unit)
  {
    UnitKeyOfUpper(unit);
  }

  lemma UnitKeyOfUpper(unit: string)
    ensures UnitKey(Upper(unit)) == UnitKey(unit)
  {
    LowerOfUpper(unit);
  }
}

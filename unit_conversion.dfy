/** utils/unit_conversion.py: fractional-inch parsing and the inch/metre, bar/psi and
    Celsius/Fahrenheit conversions used by the pattern-based extractor. */
module UnitConversion {
  import opened Common
  import opened Text

  // ---------------------------------------------------------------- parse_fractional_inches

  /** Strips whitespace, then removes every double and single quote. */
  function CleanSize(s: string): (t: string)
    ensures '"' !in t && '\'' !in t
  {
    RemoveChar(RemoveChar(Strip(s), '"'), '\'')
  }

  /** `frac_parts = p.split('/')`, then int() of the first two parts and their quotient; errors
      arise in Python's evaluation order: numerator, missing denominator, denominator, division. */
  function FractionValue(p: string): (r: Result<real>)
  {
    var fp := SplitOn(p, '/');
    var n := IntOrErr(fp[0]);
    if n.Err? then Err(n.error)
    else if |fp| < 2 then Err(MissingDenominator)
    else
      var d := IntOrErr(fp[1]);
      if d.Err? then Err(d.error)
      else if d.value == 0 then Err(ZeroDivision)
      else Ok(Ratio(n.value, d.value))
  }

  /** parse_fractional_inches: "W N/D", "N/D" or a decimal numeral, after removing quotes. */
  function ParseFractionalInches(s: string): Result<real>
  {
    ParseCleanSize(CleanSize(s))
  }

  /** The parse proper, on the text left once whitespace and quotes are gone. */
  function ParseCleanSize(t: string): Result<real>
  {
    if '/' in t then
      var parts := SplitWords(t);
      if |parts| == 2 then MixedValue(parts[0], parts[1])
      else if |parts| == 1 then FractionValue(parts[0])
      else FloatOrErr(t)
    else FloatOrErr(t)
  }

  /** int(whole) + numerator / denominator for the two words of "W N/D". */
  function MixedValue(whole: string, fraction: string): Result<real>
  {
    AddParts(IntOrErr(whole), FractionValue(fraction))
  }

  /** The whole part's error comes first, as int(whole) is evaluated first. */
  function AddParts(w: Result<int>, f: Result<real>): Result<real>
  {
    if w.Err? then Err(w.error)
    else if f.Err? then Err(f.error)
    else Ok(w.value as real + f.value)
  }

  // -------- lemmas about the parser

  /** The text of a fraction "N/D". */
  function FractionText(n: nat, d: nat): string { ShowNat(n) + "/" + ShowNat(d) }

  lemma FractionTextShape(n: nat, d: nat)
    ensures NoSpace(FractionText(n, d)) && FractionText(n, d) != []
    ensures '"' !in FractionText(n, d) && '\'' !in FractionText(n, d)
    ensures '/' in FractionText(n, d)
    ensures !IsSpace(FractionText(n, d)[0]) && !IsSpace(FractionText(n, d)[|FractionText(n, d)| - 1])
  {
    var a, b := ShowNat(n), ShowNat(d);
    AllDigitsNoSpace(a);
    AllDigitsNoSpace(b);
    var f := a + "/" + b;
    forall i | 0 <= i < |f| ensures !IsSpace(f[i]) && f[i] != '"' && f[i] != '\'' {
      if i < |a| { assert f[i] == a[i]; }
      else if i > |a| { assert f[i] == b[i - |a| - 1]; }
    }
    assert f[|a|] == '/';
  }

  lemma {:induction false} FractionValueOf(n: nat, d: nat)
    ensures FractionValue(FractionText(n, d))
         == if d == 0 then Err(ZeroDivision) else Ok(Ratio(n, d))
  {
    var a, b := ShowNat(n), ShowNat(d);
    AllDigitsNoSpace(a);
    AllDigitsNoSpace(b);
    SplitOnTwo(a, b, '/');
    assert a + "/" + b == a + ['/'] + b;
    ParseIntShowNat(n);
    ParseIntShowNat(d);
  }

  /** The text "W N/D" with an optional closing inch mark. */
  function MixedText(w: nat, n: nat, d: nat, quoted: bool): string {
    ShowNat(w) + " " + FractionText(n, d) + (if quoted then "\"" else "")
  }

  lemma CleanMixedText(w: nat, n: nat, d: nat, quoted: bool)
    ensures CleanSize(MixedText(w, n, d, quoted)) == ShowNat(w) + " " + FractionText(n, d)
  {
    var a, f := ShowNat(w), FractionText(n, d);
    var q: string := if quoted then "\"" else "";
    var body := a + " " + f;
    var s := MixedText(w, n, d, quoted);
    assert s == body + q;
    AllDigitsNoSpace(a);
    FractionTextShape(n, d);
    assert s[0] == a[0];
    assert s[|s| - 1] == if quoted then '"' else f[|f| - 1];
    StripNoEdgeSpace(s);
    assert '"' !in body && '\'' !in body by {
      forall i | 0 <= i < |body| ensures body[i] != '"' && body[i] != '\'' {
        if i < |a| { assert body[i] == a[i]; }
        else if i > |a| { assert body[i] == f[i - |a| - 1]; }
      }
    }
    RemoveCharAppend(body, q, '"');
    RemoveCharAbsent(body, '"');
    assert RemoveChar(q, '"') == [] by {
      if quoted { assert q[1..] == []; }
    }
    assert body + [] == body;
    RemoveCharAbsent(body, '\'');
  }

  lemma ParseCleanMixed(w: nat, n: nat, d: nat)
    ensures ParseCleanSize(ShowNat(w) + " " + FractionText(n, d)) == MixedValue(ShowNat(w), FractionText(n, d))
  {
    var a, f := ShowNat(w), FractionText(n, d);
    var body := a + " " + f;
    AllDigitsNoSpace(a);
    FractionTextShape(n, d);
    assert body[|a| + 1 + |ShowNat(n)|] == '/';
    SplitWordsTwo(a, f);
    ParseCleanTwoWords(body, a, f);
  }

  lemma MixedValueOfNumbers(w: nat, n: nat, d: nat)
    ensures MixedValue(ShowNat(w), FractionText(n, d))
         == if d == 0 then Err(ZeroDivision) else Ok(w as real + Ratio(n, d))
  {
    var a, f := ShowNat(w), FractionText(n, d);
    IntOrErrShowNat(w);
    FractionValueOf(n, d);
    AddPartsOf(IntOrErr(a), FractionValue(f), w, n, d);
  }

  /** The sum of a whole part w and a fraction n/d, or the fraction's error. */
  lemma AddPartsOf(wr: Result<int>, fv: Result<real>, w: int, n: nat, d: nat)
    requires wr == Ok(w) && fv == if d == 0 then Err(ZeroDivision) else Ok(Ratio(n, d))
    ensures AddParts(wr, fv) == if d == 0 then Err(ZeroDivision) else Ok(w as real + Ratio(n, d))
  {
  }

  lemma ParseCleanTwoWords(t: string, a: string, f: string)
    requires '/' in t && SplitWords(t) == [a, f]
    ensures ParseCleanSize(t) == MixedValue(a, f)
  {
  }

  /** "W N/D" and 'W N/D"' give W + N/D; a zero denominator is a division error. */
  lemma ParseMixedNumber(w: nat, n: nat, d: nat, quoted: bool)
    ensures ParseFractionalInches(MixedText(w, n, d, quoted))
         == if d == 0 then Err(ZeroDivision) else Ok(w as real + Ratio(n, d))
  {
    CleanMixedText(w, n, d, quoted);
    ParseCleanMixed(w, n, d);
    MixedValueOfNumbers(w, n, d);
  }

  /** A bare fraction "N/D" gives N/D. */
  lemma ParseBareFraction(n: nat, d: nat)
    ensures ParseFractionalInches(FractionText(n, d))
         == if d == 0 then Err(ZeroDivision) else Ok(Ratio(n, d))
  {
    var f := FractionText(n, d);
    FractionTextShape(n, d);
    StripNoEdgeSpace(f);
    RemoveCharAbsent(f, '"');
    RemoveCharAbsent(f, '\'');
    assert CleanSize(f) == f;
    SplitWordsOne(f);
    FractionValueOf(n, d);
  }

  /** A whole number of inches parses to itself. */
  lemma ParseWholeNumber(n: nat)
    ensures ParseFractionalInches(ShowNat(n)) == Ok(n as real)
  {
    var a := ShowNat(n);
    AllDigitsNoSpace(a);
    StripNoEdgeSpace(a);
    RemoveCharAbsent(a, '"');
    RemoveCharAbsent(a, '\'');
    ParseFloatShowNat(n);
  }

  /** Text without a fraction bar is read by float() once quotes are gone. */
  lemma ParseWithoutBar(s: string)
    requires '/' !in CleanSize(s)
    ensures ParseFractionalInches(s) == FloatOrErr(CleanSize(s))
  {
  }

  /** A fraction bar inside more than two words falls through to float(), which rejects it. */
  lemma ParseTooManyWords(s: string)
    requires '/' in CleanSize(s) && |SplitWords(CleanSize(s))| > 2
    ensures ParseFractionalInches(s) == Err(MalformedNumber)
  {
    ParseCleanManyWords(CleanSize(s));
  }

  lemma ParseCleanManyWords(t: string)
    requires '/' in t && |SplitWords(t)| > 2
    ensures ParseCleanSize(t) == Err(MalformedNumber)
  {
    SlashRejected(t);
  }

  /** The documented example: "13 3/8" is 13.375 inches (the numbers are parameters so that
      the verifier reasons about the text symbolically rather than evaluating it). */
  lemma ParseThirteenThreeEighths(w: nat, n: nat, d: nat)
    requires w == 13 && n == 3 && d == 8
    ensures ParseFractionalInches(MixedText(w, n, d, false)) == Ok(13.375)
  {
    ParseMixedNumber(w, n, d, false);
    ThirteenThreeEighthsValue(ParseFractionalInches(MixedText(w, n, d, false)), w, n, d);
  }

  /** MixedText(13, 3, 8, false) is the text "13 3/8". */
  lemma ThirteenThreeEighthsText()
    ensures MixedText(13, 3, 8, false) == "13 3/8"
  {
    assert ShowNat(1) == "1";
    assert ShowNat(13) == "13";
    assert ShowNat(3) == "3" && ShowNat(8) == "8";
  }

  lemma ThirteenThreeEighthsValue(r: Result<real>, w: nat, n: nat, d: nat)
    requires w == 13 && n == 3 && d == 8
    requires r == Ok(w as real + Ratio(n, d))
    ensures r == Ok(13.375)
  {
  }

  // ---------------------------------------------------------------- conversions

  const MetresPerInch: real := 0.0254
  const PsiPerBar: real := 14.5038

  function InchesToMeters(inches: real): real { inches * MetresPerInch }

  function MetersToInches(meters: real): real { meters / MetresPerInch }

  function BarToPsi(bar: real): real { bar * PsiPerBar }

  function PsiToBar(psi: real): real { psi / PsiPerBar }

  function CelsiusToFahrenheit(c: real): real { c * 9.0 / 5.0 + 32.0 }

  function FahrenheitToCelsius(f: real): real { (f - 32.0) * 5.0 / 9.0 }

  /** Inches to metres and back is the identity, in both directions. */
  lemma InchesMetersRoundTrip(x: real)
    ensures MetersToInches(InchesToMeters(x)) == x
    ensures InchesToMeters(MetersToInches(x)) == x
  {
  }

  /** Bar to psi and back is the identity, in both directions. */
  lemma BarPsiRoundTrip(x: real)
    ensures PsiToBar(BarToPsi(x)) == x
    ensures BarToPsi(PsiToBar(x)) == x
  {
  }

  /** Celsius to Fahrenheit and back is the identity, in both directions. */
  lemma TemperatureRoundTrip(x: real)
    ensures FahrenheitToCelsius(CelsiusToFahrenheit(x)) == x
    ensures CelsiusToFahrenheit(FahrenheitToCelsius(x)) == x
  {
  }

  /** The inch conversion is linear and strictly increasing. */
  lemma InchesToMetersLinear(x: real, y: real, a: real)
    ensures InchesToMeters(x + y) == InchesToMeters(x) + InchesToMeters(y)
    ensures InchesToMeters(a * x) == a * InchesToMeters(x)
    ensures x < y <==> InchesToMeters(x) < InchesToMeters(y)
  {
  }

  /** A 13 3/8 inch pipe is 0.339725 m. */
  lemma ThirteenThreeEighthsInMetres()
    ensures InchesToMeters(13.375) == 0.339725
  {
  }
}

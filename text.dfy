/** Python string primitives the core relies on (str.strip, str.split, str.lower, str.upper,
    str.replace, the `in` substring test, int() and float()), restricted to ASCII. */
module Text {
  import opened Common

  /** The ASCII characters Python's str.split() and str.strip() treat as whitespace: blank,
      tab, line feed, carriage return, vertical tab, form feed and the four separators
      0x1C to 0x1F. */
  predicate IsSpace(c: char) {
    c == ' ' || c == '\t' || c == '\n' || c == '\r' || c == '\U{B}' || c == '\U{C}' ||
    c == '\U{1C}' || c == '\U{1D}' || c == '\U{1E}' || c == '\U{1F}'
  }

  predicate IsDigit(c: char) { '0' <= c <= '9' }

  predicate AllDigits(s: string) { forall i :: 0 <= i < |s| ==> IsDigit(s[i]) }

  predicate NoSpace(s: string) { forall i :: 0 <= i < |s| ==> !IsSpace(s[i]) }

  lemma AppendAssoc(a: string, b: string, c: string)
    ensures a + b + c == a + (b + c)
  {
  }

  // ---------------------------------------------------------------- strip

  function TrimLeft(s: string): (r: string)
    ensures |r| <= |s| && r == s[|s| - |r|..]
    ensures r == [] || !IsSpace(r[0])
    ensures forall i :: 0 <= i < |s| - |r| ==> IsSpace(s[i])
  {
    if s != [] && IsSpace(s[0]) then
      var r := TrimLeft(s[1..]);
      assert s[1..][|s| - 1 - |r|..] == s[|s| - |r|..];
      assert forall i :: 1 <= i < |s| - |r| ==> s[i] == s[1..][i - 1];
      r
    else s
  }

  function TrimRight(s: string): (r: string)
    ensures |r| <= |s| && r == s[..|r|]
    ensures r == [] || !IsSpace(r[|r| - 1])
    ensures forall i :: |r| <= i < |s| ==> IsSpace(s[i])
  {
    if s != [] && IsSpace(s[|s| - 1]) then
      var r := TrimRight(s[..|s| - 1]);
      assert s[..|s| - 1][..|r|] == s[..|r|];
      assert forall i :: |r| <= i < |s| - 1 ==> s[i] == s[..|s| - 1][i];
      r
    else s
  }

  /** str.strip(): drops leading and trailing whitespace and nothing else; the result is
      s[Lead(s)..Lead(s) + |r|] and everything outside that window is whitespace. */
  function Strip(s: string): (r: string)
    ensures r == [] || (!IsSpace(r[0]) && !IsSpace(r[|r| - 1]))
    ensures Lead(s) + |r| <= |s| && r == s[Lead(s)..Lead(s) + |r|]
    ensures forall i :: 0 <= i < Lead(s) ==> IsSpace(s[i])
    ensures forall i :: Lead(s) + |r| <= i < |s| ==> IsSpace(s[i])
  {
    var t := TrimLeft(s);
    var r := TrimRight(t);
    StripWindow(s, t, r);
    r
  }

  /** The right-trimmed remainder of the left-trimmed text is a window of the original. */
  lemma StripWindow(s: string, t: string, r: string)
    requires |t| <= |s| && t == s[|s| - |t|..] && (forall i :: 0 <= i < |s| - |t| ==> IsSpace(s[i]))
    requires |r| <= |t| && r == t[..|r|] && (forall i :: |r| <= i < |t| ==> IsSpace(t[i]))
    ensures r == s[|s| - |t|..|s| - |t| + |r|]
    ensures forall i :: |s| - |t| + |r| <= i < |s| ==> IsSpace(s[i])
  {
    var k := |s| - |t|;
    assert r == s[k..][..|r|];
    forall i | k + |r| <= i < |s| ensures IsSpace(s[i]) {
      assert s[i] == t[i - k];
    }
  }

  /** The number of leading whitespace characters. */
  function Lead(s: string): nat
  {
    |s| - |TrimLeft(s)|
  }

  lemma StripNoEdgeSpace(s: string)
    requires s != [] && !IsSpace(s[0]) && !IsSpace(s[|s| - 1])
    ensures Strip(s) == s
  {
  }

  /** Whitespace is the only thing strip removes: a non-space character survives it. */
  lemma StripKeeps(s: string, c: char)
    requires c in s && !IsSpace(c)
    ensures c in Strip(s)
  {
    var r := Strip(s);
    var j :| 0 <= j < |s| && s[j] == c;
    assert Lead(s) <= j < Lead(s) + |r|;
    assert r[j - Lead(s)] == c;
  }

  // ---------------------------------------------------------------- replace

  /** str.replace(c, ''): every occurrence of the character c removed. */
  function RemoveChar(s: string, c: char): (r: string)
    ensures c !in r && |r| <= |s|
    ensures forall x :: x in r ==> x in s
  {
    if s == [] then [] else if s[0] == c then RemoveChar(s[1..], c) else [s[0]] + RemoveChar(s[1..], c)
  }

  lemma RemoveCharAbsent(s: string, c: char)
    requires c !in s
    ensures RemoveChar(s, c) == s
  {
  }

  lemma {:induction false} RemoveCharAppend(a: string, b: string, c: char)
    ensures RemoveChar(a + b, c) == RemoveChar(a, c) + RemoveChar(b, c)
  {
    if a != [] {
      assert (a + b)[1..] == a[1..] + b;
      RemoveCharAppend(a[1..], b, c);
      assert RemoveChar(a + b, c) == (if a[0] == c then [] else [a[0]]) + RemoveChar(a[1..] + b, c);
    } else {
      assert a + b == b;
    }
  }

  /** str.replace(w, ''): non-overlapping occurrences of w removed, scanning left to right. */
  function RemoveWord(s: string, w: string): (r: string)
    requires w != []
    ensures |r| <= |s|
    decreases |s|
  {
    if s == [] then []
    else if |w| <= |s| && s[..|w|] == w then RemoveWord(s[|w|..], w)
    else [s[0]] + RemoveWord(s[1..], w)
  }

  lemma RemoveWordAbsent(s: string, w: string)
    requires w != [] && w[0] !in s
    ensures RemoveWord(s, w) == s
    decreases |s|
  {
    if s != [] {
      assert s[0] != w[0];
      RemoveWordAbsent(s[1..], w);
    }
  }

  // ---------------------------------------------------------------- split

  /** The longest prefix of s without whitespace. */
  function TakeWord(s: string): (w: string)
    ensures |w| <= |s| && w == s[..|w|] && NoSpace(w)
    ensures |w| == |s| || IsSpace(s[|w|])
    ensures s != [] && !IsSpace(s[0]) ==> |w| >= 1
  {
    if s == [] || IsSpace(s[0]) then [] else [s[0]] + TakeWord(s[1..])
  }

  /** str.split() without arguments: the maximal runs of non-whitespace characters. */
  function SplitWords(s: string): seq<string>
    decreases |s|
  {
    var t := TrimLeft(s);
    if t == [] then []
    else
      var w := TakeWord(t);
      [w] + SplitWords(t[|w|..])
  }

  lemma {:induction false} TakeWordPrefix(a: string, b: string)
    requires NoSpace(a)
    requires b == [] || IsSpace(b[0])
    ensures TakeWord(a + b) == a
  {
    if a != [] {
      assert (a + b)[1..] == a[1..] + b;
      TakeWordPrefix(a[1..], b);
    }
  }

  lemma SplitWordsOne(a: string)
    requires a != [] && NoSpace(a)
    ensures SplitWords(a) == [a]
  {
    TakeWordPrefix(a, []);
    assert a + [] == a;
    assert a[|a|..] == [];
  }

  lemma SplitWordsCons(a: string, rest: string)
    requires a != [] && NoSpace(a)
    requires rest == [] || IsSpace(rest[0])
    ensures SplitWords(a + rest) == [a] + SplitWords(rest)
  {
    var s := a + rest;
    assert s[0] == a[0];
    assert TrimLeft(s) == s;
    TakeWordPrefix(a, rest);
    assert s[|a|..] == rest;
  }

  lemma SplitWordsSkipSpace(rest: string)
    requires rest != [] && IsSpace(rest[0])
    ensures SplitWords(rest) == SplitWords(rest[1..])
  {
    assert TrimLeft(rest) == TrimLeft(rest[1..]);
  }

  /** Two words separated by a single space split into exactly those two words. */
  lemma SplitWordsTwo(a: string, b: string)
    requires a != [] && NoSpace(a) && b != [] && NoSpace(b)
    ensures SplitWords(a + " " + b) == [a, b]
  {
    var rest := " " + b;
    assert a + " " + b == a + rest;
    assert rest[0] == ' ' && rest[1..] == b;
    SplitWordsCons(a, rest);
    SplitWordsSkipSpace(rest);
    SplitWordsOne(b);
    assert SplitWords(a + rest) == [a] + [b];
  }

  /** A word as str.split() yields it: non-empty, without whitespace. */
  predicate Word(w: string) { w != [] && NoSpace(w) }

  lemma {:induction false} SplitWordsClean(s: string)
    ensures forall i :: 0 <= i < |SplitWords(s)| ==> Word(SplitWords(s)[i])
    decreases |s|
  {
    var t := TrimLeft(s);
    if t != [] {
      SplitWordsClean(t[|TakeWord(t)|..]);
    }
  }

  /** Joining words with single spaces and splitting again gives the words back. */
  lemma {:induction false} SplitJoin(ws: seq<string>)
    requires forall i :: 0 <= i < |ws| ==> Word(ws[i])
    ensures SplitWords(Join(ws, " ")) == ws
  {
    if |ws| == 1 {
      SplitWordsOne(ws[0]);
    } else if |ws| > 1 {
      SplitJoin(ws[1..]);
      SplitJoinCons(ws);
    }
  }

  lemma SplitJoinCons(ws: seq<string>)
    requires |ws| > 1 && Word(ws[0])
    requires SplitWords(Join(ws[1..], " ")) == ws[1..]
    ensures SplitWords(Join(ws, " ")) == ws
  {
    var tail := Join(ws[1..], " ");
    assert Join(ws, " ") == ws[0] + " " + tail;
    SplitWordsSpaced(ws[0], tail);
    assert ws == [ws[0]] + ws[1..];
  }

  lemma SplitWordsSpaced(a: string, tail: string)
    requires Word(a)
    ensures SplitWords(a + " " + tail) == [a] + SplitWords(tail)
  {
    var rest := " " + tail;
    assert a + " " + tail == a + rest;
    SplitWordsCons(a, rest);
    assert rest[1..] == tail;
    SplitWordsSkipSpace(rest);
  }

  /** str.split(c): the pieces between occurrences of c, always at least one. */
  function SplitOn(s: string, c: char): (parts: seq<string>)
    ensures |parts| >= 1
  {
    if s == [] then [[]]
    else
      var rest := SplitOn(s[1..], c);
      if s[0] == c then [[]] + rest else [[s[0]] + rest[0]] + rest[1..]
  }

  lemma {:induction false} SplitOnPrefix(a: string, t: string, c: char)
    requires c !in a
    ensures SplitOn(a + t, c) == [a + SplitOn(t, c)[0]] + SplitOn(t, c)[1..]
  {
    if a != [] {
      assert (a + t)[1..] == a[1..] + t;
      assert (a + t)[0] == a[0] != c;
      SplitOnPrefix(a[1..], t, c);
      assert [a[0]] + (a[1..] + SplitOn(t, c)[0]) == a + SplitOn(t, c)[0];
    } else {
      assert a + t == t;
      var p := SplitOn(t, c);
      assert [] + p[0] == p[0];
      assert p == [p[0]] + p[1..];
    }
  }

  /** "a/b".split('/') == ["a", "b"] when neither side holds a '/'. */
  lemma SplitOnTwo(a: string, b: string, c: char)
    requires c !in a && c !in b
    ensures SplitOn(a + [c] + b, c) == [a, b]
  {
    var tail := [c] + b;
    assert a + [c] + b == a + tail;
    SplitOnPrefix(b, [], c);
    assert b + [] == b;
    var pb := SplitOn(b, c);
    assert pb == [b];
    assert tail[0] == c && tail[1..] == b;
    var pt := SplitOn(tail, c);
    assert pt == [[]] + pb;
    SplitOnPrefix(a, tail, c);
    assert SplitOn(a + tail, c) == [a + pt[0]] + pt[1..];
    assert a + pt[0] == a;
  }

  // ---------------------------------------------------------------- join

  /** sep.join(ws). */
  function Join(ws: seq<string>, sep: string): string
  {
    if ws == [] then [] else if |ws| == 1 then ws[0] else ws[0] + sep + Join(ws[1..], sep)
  }

  // ---------------------------------------------------------------- case

  function LowerChar(c: char): (d: char)
    ensures !('A' <= d <= 'Z')
  {
    if 'A' <= c <= 'Z' then (c as int + 32) as char else c
  }

  function UpperChar(c: char): (d: char)
    ensures !('a' <= d <= 'z')
  {
    if 'a' <= c <= 'z' then (c as int - 32) as char else c
  }

  /** str.lower() on ASCII letters; every other character is kept. */
  function Lower(s: string): (r: string)
    ensures |r| == |s| && forall i :: 0 <= i < |s| ==> r[i] == LowerChar(s[i])
  {
    seq(|s|, i requires 0 <= i < |s| => LowerChar(s[i]))
  }

  /** str.upper() on ASCII letters; every other character is kept. */
  function Upper(s: string): (r: string)
    ensures |r| == |s| && forall i :: 0 <= i < |s| ==> r[i] == UpperChar(s[i])
  {
    seq(|s|, i requires 0 <= i < |s| => UpperChar(s[i]))
  }

  /** Case folding forgets the case the text was written in. */
  lemma LowerOfUpper(s: string)
    ensures Lower(Upper(s)) == Lower(s)
  {
  }

  // ---------------------------------------------------------------- substring

  predicate StartsWith(s: string, p: string) { |p| <= |s| && s[..|p|] == p }

  /** Python `sub in s`. */
  predicate Contains(s: string, sub: string)
    decreases |s|
  {
    StartsWith(s, sub) || (s != [] && Contains(s[1..], sub))
  }

  /** sub occurs in s starting at index i. */
  predicate OccursAt(s: string, sub: string, i: int)
  {
    0 <= i <= |s| - |sub| && s[i..i + |sub|] == sub
  }

  lemma {:induction false} ContainsAt(s: string, sub: string)
    ensures Contains(s, sub) <==> exists i :: OccursAt(s, sub, i)
    decreases |s|
  {
    if Contains(s, sub) {
      if StartsWith(s, sub) {
        assert OccursAt(s, sub, 0);
      } else {
        ContainsAt(s[1..], sub);
        var i :| OccursAt(s[1..], sub, i);
        assert s[1..][i..i + |sub|] == s[i + 1..i + 1 + |sub|];
        assert OccursAt(s, sub, i + 1);
      }
    }
    if i :| OccursAt(s, sub, i) {
      if i == 0 {
        assert StartsWith(s, sub);
      } else {
        assert s[1..][i - 1..i - 1 + |sub|] == s[i..i + |sub|];
        assert OccursAt(s[1..], sub, i - 1);
        ContainsAt(s[1..], sub);
      }
    }
  }

  lemma SliceOfSlice(s: string, i: nat, m: nat, j: nat, n: nat)
    requires i + m <= |s| && j + n <= m
    ensures s[i..i + m][j..j + n] == s[i + j..i + j + n]
  {
    var t := s[i..i + m];
    var u := t[j..j + n];
    assert forall k :: 0 <= k < n ==> u[k] == s[i + j + k];
  }

  /** A text containing a phrase contains every part of that phrase. */
  lemma ContainsTransitive(s: string, mid: string, sub: string)
    requires Contains(s, mid) && Contains(mid, sub)
    ensures Contains(s, sub)
  {
    ContainsAt(s, mid);
    ContainsAt(mid, sub);
    var i :| OccursAt(s, mid, i);
    var j :| OccursAt(mid, sub, j);
    SliceOfSlice(s, i, |mid|, j, |sub|);
    assert OccursAt(s, sub, i + j);
    ContainsAt(s, sub);
  }

  // ---------------------------------------------------------------- numerals

  function DigitValue(c: char): nat
    requires IsDigit(c)
  {
    c as int - '0' as int
  }

  function DigitChar(d: nat): (c: char)
    requires d < 10
    ensures IsDigit(c) && DigitValue(c) == d
  {
    ('0' as int + d) as char
  }

  /** The value of a decimal digit string, most significant digit first. */
  function DigitsValue(s: string): nat
    requires AllDigits(s)
  {
    if s == [] then 0 else DigitsValue(s[..|s| - 1]) * 10 + DigitValue(s[|s| - 1])
  }

  /** The decimal numeral of n, as str(n) prints it. */
  function ShowNat(n: nat): (s: string)
    ensures s != [] && AllDigits(s)
  {
    if n < 10 then [DigitChar(n)] else ShowNat(n / 10) + [DigitChar(n % 10)]
  }

  lemma {:induction false} DigitsValueShowNat(n: nat)
    ensures DigitsValue(ShowNat(n)) == n
  {
    if n >= 10 {
      var s := ShowNat(n);
      assert s[..|s| - 1] == ShowNat(n / 10);
      DigitsValueShowNat(n / 10);
    }
  }

  lemma AllDigitsNoSpace(s: string)
    requires AllDigits(s)
    ensures NoSpace(s) && '/' !in s && '.' !in s && '"' !in s && '\'' !in s
    ensures forall i :: 0 <= i < |s| ==> s[i] != '+' && s[i] != '-'
  {
    forall i | 0 <= i < |s| ensures !IsSpace(s[i]) && s[i] != '/' && s[i] != '.' && s[i] != '"' && s[i] != '\'' {
      assert IsDigit(s[i]);
    }
  }

  /** Strings of digits only: the digit-run groups of a regex. */
  function ParseNat(s: string): (r: Option<nat>)
    ensures r.Some? <==> s != [] && AllDigits(s)
  {
    if s != [] && AllDigits(s) then Some(DigitsValue(s)) else None
  }

  /** Python int(): surrounding whitespace, an optional sign, then decimal digits. */
  function ParseInt(s: string): Option<int>
  {
    var t := Strip(s);
    if t != [] && (t[0] == '+' || t[0] == '-') then
      match ParseNat(t[1..])
      case None => None
      case Some(n) => var v: int := n; Some(if t[0] == '-' then -v else v)
    else
      match ParseNat(t)
      case None => None
      case Some(n) => Some(n)
  }

  lemma ParseIntShowNat(n: nat)
    ensures ParseInt(ShowNat(n)) == Some(n)
  {
    var s := ShowNat(n);
    AllDigitsNoSpace(s);
    StripNoEdgeSpace(s);
    DigitsValueShowNat(n);
  }

  function Pow10(k: nat): (p: nat)
    ensures p >= 1
  {
    if k == 0 then 1 else 10 * Pow10(k - 1)
  }

  /** Index of the first occurrence of c in s. */
  function IndexOf(s: string, c: char): (k: nat)
    requires c in s
    ensures k < |s| && s[k] == c && c !in s[..k]
  {
    if s[0] == c then 0 else 1 + IndexOf(s[1..], c)
  }

  /** An unsigned decimal "123", "12.5", "12." or ".5": at least one digit and at most one point. */
  function UnsignedDecimal(s: string): (r: Option<real>)
    ensures r.Some? ==> forall i :: 0 <= i < |s| ==> IsDigit(s[i]) || s[i] == '.'
  {
    if '.' !in s then
      if s != [] && AllDigits(s) then Some(DigitsValue(s) as real) else None
    else
      var k := IndexOf(s, '.');
      var whole, frac := s[..k], s[k + 1..];
      if AllDigits(whole) && AllDigits(frac) && |whole| + |frac| > 0 then
        Some(DigitsValue(whole) as real + Ratio(DigitsValue(frac), Pow10(|frac|)))
      else None
  }

  /** Python float() on decimal notation: surrounding whitespace, an optional sign, an unsigned decimal. */
  function ParseFloat(s: string): Option<real>
  {
    var t := Strip(s);
    if t != [] && (t[0] == '+' || t[0] == '-') then
      match UnsignedDecimal(t[1..])
      case None => None
      case Some(x) => Some(if t[0] == '-' then -x else x)
    else UnsignedDecimal(t)
  }

  lemma ParseFloatShowNat(n: nat)
    ensures ParseFloat(ShowNat(n)) == Some(n as real)
  {
    var s := ShowNat(n);
    AllDigitsNoSpace(s);
    StripNoEdgeSpace(s);
    DigitsValueShowNat(n);
  }

  /** float() accepts no text holding a character other than digits, point, sign or whitespace. */
  lemma ParseFloatRejects(s: string, c: char)
    requires c in s && !IsSpace(c) && !IsDigit(c) && c != '.' && c != '+' && c != '-'
    ensures ParseFloat(s) == None
  {
    StripKeeps(s, c);
    var t := Strip(s);
    var j :| 0 <= j < |t| && t[j] == c;
    if t != [] && (t[0] == '+' || t[0] == '-') {
      assert j >= 1 && t[1..][j - 1] == c;
      DecimalRejects(t[1..], c);
    } else {
      DecimalRejects(t, c);
    }
  }

  lemma DecimalRejects(u: string, c: char)
    requires c in u && !IsDigit(c) && c != '.'
    ensures UnsignedDecimal(u) == None
  {
    var j :| 0 <= j < |u| && u[j] == c;
    assert !(forall i :: 0 <= i < |u| ==> IsDigit(u[i]) || u[i] == '.') by {
      assert !(IsDigit(u[j]) || u[j] == '.');
    }
  }

  lemma IntOrErrShowNat(n: nat)
    ensures IntOrErr(ShowNat(n)) == Ok(n)
  {
    ParseIntShowNat(n);
  }

  /** float() rejects any text holding a fraction bar. */
  lemma SlashRejected(s: string)
    requires '/' in s
    ensures FloatOrErr(s) == Err(MalformedNumber)
  {
    ParseFloatRejects(s, '/');
  }

  /** int() of a piece of text, a ValueError when it is not an integer. */
  function IntOrErr(s: string): (r: Result<int>)
    ensures r.Ok? <==> ParseInt(s).Some?
  {
    match ParseInt(s)
    case None => Err(MalformedNumber)
    case Some(v) => Ok(v)
  }

  /** float() of a piece of text, a ValueError when it is not a decimal numeral. */
  function FloatOrErr(s: string): (r: Result<real>)
    ensures r.Ok? <==> ParseFloat(s).Some?
  {
    match ParseFloat(s)
    case None => Err(MalformedNumber)
    case Some(v) => Ok(v)
  }

  // ---------------------------------------------------------------- scanning

  /** Length of the longest all-digit prefix of s (a greedy `\d+` / `\d*`). */
  function DigitRun(s: string): (k: nat)
    ensures k <= |s| && AllDigits(s[..k]) && (k == |s| || !IsDigit(s[k]))
  {
    if s != [] && IsDigit(s[0]) then
      var k := 1 + DigitRun(s[1..]);
      assert s[..k] == [s[0]] + s[1..][..k - 1];
      k
    else 0
  }

  /** Length of the longest all-whitespace prefix of s (a greedy `\s+` / `\s*`). */
  function SpaceRun(s: string): (k: nat)
    ensures k <= |s| && (forall i :: 0 <= i < k ==> IsSpace(s[i])) && (k == |s| || !IsSpace(s[k]))
  {
    if s != [] && IsSpace(s[0]) then 1 + SpaceRun(s[1..]) else 0
  }

  lemma {:induction false} DigitRunPrefix(a: string, b: string)
    requires AllDigits(a) && (b == [] || !IsDigit(b[0]))
    ensures DigitRun(a + b) == |a|
  {
    if a != [] {
      assert (a + b)[1..] == a[1..] + b;
      DigitRunPrefix(a[1..], b);
    } else {
      assert a + b == b;
    }
  }

  lemma {:induction false} RemoveWordSkip(a: string, t: string, w: string)
    requires w != [] && w[0] !in a
    ensures RemoveWord(a + t, w) == a + RemoveWord(t, w)
  {
    if a != [] {
      assert (a + t)[0] == a[0] != w[0];
      assert (a + t)[1..] == a[1..] + t;
      RemoveWordSkip(a[1..], t, w);
      assert [a[0]] + (a[1..] + RemoveWord(t, w)) == a + RemoveWord(t, w);
    } else {
      assert a + t == t;
    }
  }
}

/** String helpers with the meaning JavaScript and Python give them:
    `trim`/`strip` with each language's whitespace, `toLowerCase`/`toUpperCase`
    on ASCII letters, `includes`, `startsWith` and decimal rendering of
    non-negative integers. */
module Text {

  /** Whose notion of whitespace a trim uses: ECMAScript's `String.prototype.trim`
      or Python's `str.strip()` without arguments. */
  datatype Whitespace = Ecma | Python

  /** WhiteSpace and LineTerminator of ECMA-262 (sections 12.2 and 12.3): tab,
      vertical tab, form feed, space, no-break space, the byte order mark, the
      other Unicode space separators, line feed, carriage return and the line and
      paragraph separators. */
  predicate IsEcmaSpace(c: char) {
    c == '\t' || c == '\U{0B}' || c == '\U{0C}' || c == ' ' || c == '\U{A0}' || c == '\U{FEFF}' ||
    c == '\U{1680}' || ('\U{2000}' <= c <= '\U{200A}') || c == '\U{202F}' || c == '\U{205F}' ||
    c == '\U{3000}' || c == '\n' || c == '\r' || c == '\U{2028}' || c == '\U{2029}'
  }

  /** The characters Python's `str.isspace` accepts: the Unicode space separators
      and the characters of bidirectional class WS, B or S, among them the
      information separators U+001C to U+001F and the next-line character. */
  predicate IsPythonSpace(c: char) {
    ('\t' <= c <= '\r') || ('\U{1C}' <= c <= ' ') || c == '\U{85}' || c == '\U{A0}' ||
    c == '\U{1680}' || ('\U{2000}' <= c <= '\U{200A}') || c == '\U{2028}' || c == '\U{2029}' ||
    c == '\U{202F}' || c == '\U{205F}' || c == '\U{3000}'
  }

  predicate IsSpace(ws: Whitespace, c: char) {
    match ws
    case Ecma => IsEcmaSpace(c)
    case Python => IsPythonSpace(c)
  }

  /** The two languages disagree on exactly six characters. */
  lemma SpacesDisagree(c: char)
    ensures IsSpace(Ecma, c) != IsSpace(Python, c) <==> c == '\U{FEFF}' || ('\U{1C}' <= c <= '\U{1F}') || c == '\U{85}'
  {
  }

  predicate IsDigit(c: char) {
    '0' <= c <= '9'
  }

  function TrimStart(ws: Whitespace, s: string): (r: string)
    ensures |r| <= |s| && r == s[|s| - |r|..]
    ensures r == [] || !IsSpace(ws, r[0])
    ensures forall i :: 0 <= i < |s| - |r| ==> IsSpace(ws, s[i])
  {
    if s != [] && IsSpace(ws, s[0]) then
      var r := TrimStart(ws, s[1..]);
      assert forall i :: 1 <= i < |s| - |r| ==> s[i] == s[1..][i - 1];
      r
    else s
  }

  function TrimEnd(ws: Whitespace, s: string): (r: string)
    ensures |r| <= |s| && r == s[..|r|]
    ensures r == [] || !IsSpace(ws, r[|r| - 1])
    ensures forall i :: |r| <= i < |s| ==> IsSpace(ws, s[i])
  {
    if s != [] && IsSpace(ws, s[|s| - 1]) then TrimEnd(ws, s[..|s| - 1]) else s
  }

  /** Whitespace removed from both ends. */
  function TrimBy(ws: Whitespace, s: string): string {
    TrimEnd(ws, TrimStart(ws, s))
  }

  /** `s.trim()` in JavaScript. */
  function Trim(s: string): string {
    TrimBy(Ecma, s)
  }

  /** `s.strip()` in Python. */
  function Strip(s: string): string {
    TrimBy(Python, s)
  }

  predicate AllSpace(ws: Whitespace, s: string) {
    forall i :: 0 <= i < |s| ==> IsSpace(ws, s[i])
  }

  /** Trimming yields the empty string exactly when every character is whitespace. */
  lemma TrimEmptyIff(ws: Whitespace, s: string)
    ensures TrimBy(ws, s) == [] <==> AllSpace(ws, s)
  {
    var t := TrimStart(ws, s);
    assert TrimBy(ws, s) == TrimEnd(ws, t);
  }

  /** A trimmed string that is not empty has no whitespace at either end. */
  lemma TrimmedEnds(ws: Whitespace, s: string)
    requires TrimBy(ws, s) != []
    ensures !IsSpace(ws, TrimBy(ws, s)[0]) && !IsSpace(ws, TrimBy(ws, s)[|TrimBy(ws, s)| - 1])
  {
    var t := TrimStart(ws, s);
    var r := TrimEnd(ws, t);
    assert r == t[..|r|];
    assert r[0] == t[0];
  }

  /** Two blank names joined by a space are blank. */
  lemma AllSpaceJoined(ws: Whitespace, a: string, b: string)
    requires AllSpace(ws, a) && AllSpace(ws, b)
    ensures AllSpace(ws, a + " " + b)
  {
    var s := a + " " + b;
    forall i | 0 <= i < |s| ensures IsSpace(ws, s[i]) {
      if i < |a| {
        assert s[i] == a[i];
      } else if i > |a| {
        assert s[i] == b[i - |a| - 1];
      }
    }
  }

  /** No character of `s` is whitespace to one language and not to the other. */
  predicate SpacesAgree(s: string) {
    forall i :: 0 <= i < |s| ==> IsSpace(Ecma, s[i]) == IsSpace(Python, s[i])
  }

  lemma {:induction false} TrimStartAgrees(s: string)
    requires SpacesAgree(s)
    ensures TrimStart(Ecma, s) == TrimStart(Python, s)
  {
    if s != [] {
      assert SpacesAgree(s[1..]) by {
        forall i | 0 <= i < |s| - 1 ensures IsSpace(Ecma, s[1..][i]) == IsSpace(Python, s[1..][i]) {
          assert s[1..][i] == s[i + 1];
        }
      }
      TrimStartAgrees(s[1..]);
    }
  }

  lemma {:induction false} TrimEndAgrees(s: string)
    requires SpacesAgree(s)
    ensures TrimEnd(Ecma, s) == TrimEnd(Python, s)
  {
    if s != [] {
      var u := s[..|s| - 1];
      assert SpacesAgree(u) by {
        forall i | 0 <= i < |u| ensures IsSpace(Ecma, u[i]) == IsSpace(Python, u[i]) {
          assert u[i] == s[i];
        }
      }
      TrimEndAgrees(u);
    }
  }

  /** JavaScript's `trim` and Python's `strip` agree on text without the
      characters the two languages classify differently. */
  lemma TrimAgreesWithStrip(s: string)
    requires SpacesAgree(s)
    ensures Trim(s) == Strip(s)
  {
    TrimStartAgrees(s);
    var t := TrimStart(Ecma, s);
    assert SpacesAgree(t) by {
      forall i | 0 <= i < |t| ensures IsSpace(Ecma, t[i]) == IsSpace(Python, t[i]) {
        assert t[i] == s[|s| - |t| + i];
      }
    }
    TrimEndAgrees(t);
  }

  /** A byte order mark alone is blank to JavaScript but not to Python. */
  lemma ByteOrderMarkTrimmedOnlyByEcma()
    ensures Trim("\U{FEFF}") == [] && Strip("\U{FEFF}") == "\U{FEFF}"
  {
    var bom := "\U{FEFF}";
    assert IsSpace(Ecma, bom[0]) && !IsSpace(Python, bom[0]);
    assert TrimStart(Ecma, bom) == TrimStart(Ecma, bom[1..]) == [];
    assert TrimStart(Python, bom) == bom;
  }

  function LowerChar(c: char): char {
    if 'A' <= c <= 'Z' then (c as int + 32) as char else c
  }

  function UpperChar(c: char): char {
    if 'a' <= c <= 'z' then (c as int - 32) as char else c
  }

  /** `s.toLowerCase()` on ASCII text. */
  function Lower(s: string): (r: string)
    ensures |r| == |s|
    ensures forall i :: 0 <= i < |s| ==> r[i] == LowerChar(s[i])
  {
    seq(|s|, i requires 0 <= i < |s| => LowerChar(s[i]))
  }

  /** `s.toUpperCase()` on ASCII text. */
  function Upper(s: string): (r: string)
    ensures |r| == |s|
    ensures forall i :: 0 <= i < |s| ==> r[i] == UpperChar(s[i])
  {
    seq(|s|, i requires 0 <= i < |s| => UpperChar(s[i]))
  }

  predicate StartsWith(s: string, prefix: string) {
    |prefix| <= |s| && s[..|prefix|] == prefix
  }

  /** `sub` occurs in `s` starting at index `i`. */
  predicate MatchAt(s: string, sub: string, i: int) {
    0 <= i && i + |sub| <= |s| && s[i..i + |sub|] == sub
  }

  /** `s.includes(sub)`. */
  predicate Contains(s: string, sub: string) {
    exists i :: 0 <= i <= |s| && MatchAt(s, sub, i)
  }

  /** Every string includes the empty string. */
  lemma ContainsEmpty(s: string)
    ensures Contains(s, "")
  {
    assert MatchAt(s, "", 0);
  }

  /** Case-insensitive `includes`, as the search boxes compute it:
      `a.toLowerCase().includes(b.toLowerCase())`. */
  predicate ContainsIgnoringCase(s: string, sub: string) {
    Contains(Lower(s), Lower(sub))
  }

  lemma ContainsIgnoringCaseEmpty(s: string)
    ensures ContainsIgnoringCase(s, "")
  {
    ContainsEmpty(Lower(s));
  }

  /** Index of the first occurrence of `pat` in `s`, as `indexOf` computes it. */
  function IndexOf(s: string, pat: string, from: nat): (r: int)
    requires from <= |s|
    ensures r == -1 || (from <= r && MatchAt(s, pat, r))
    ensures r == -1 ==> forall i :: from <= i ==> !MatchAt(s, pat, i)
    ensures r != -1 ==> forall i :: from <= i < r ==> !MatchAt(s, pat, i)
    decreases |s| - from
  {
    if from + |pat| > |s| then -1
    else if s[from..from + |pat|] == pat then from
    else if from == |s| then -1
    else IndexOf(s, pat, from + 1)
  }

  /** `s.replace(pat, rep)` with a string pattern: only the first occurrence is replaced. */
  function ReplaceFirst(s: string, pat: string, rep: string): (r: string)
    ensures !Contains(s, pat) ==> r == s
    ensures Contains(s, pat) ==>
      exists i :: 0 <= i <= |s| && MatchAt(s, pat, i) && (forall j :: 0 <= j < i ==> !MatchAt(s, pat, j)) &&
        r == s[..i] + rep + s[i + |pat|..]
  {
    var i := IndexOf(s, pat, 0);
    if i == -1 then
      s
    else
      var r := s[..i] + rep + s[i + |pat|..];
      assert Contains(s, pat) by { assert 0 <= i <= |s| && MatchAt(s, pat, i); }
      assert 0 <= i <= |s| && MatchAt(s, pat, i) && (forall j :: 0 <= j < i ==> !MatchAt(s, pat, j)) &&
        r == s[..i] + rep + s[i + |pat|..];
      r
  }

  function DigitChar(d: nat): char
    requires d < 10
  {
    ('0' as int + d) as char
  }

  function DigitValue(c: char): nat
    requires IsDigit(c)
  {
    c as int - '0' as int
  }

  /** `${n}` for a non-negative integer: its decimal digits without leading zeros. */
  function NatToString(n: nat): (r: string)
    ensures |r| >= 1
    ensures forall i :: 0 <= i < |r| ==> IsDigit(r[i])
    ensures n >= 10 ==> r[0] != '0'
  {
    if n < 10 then [DigitChar(n)] else NatToString(n / 10) + [DigitChar(n % 10)]
  }

  predicate AllDigits(s: string) {
    forall i :: 0 <= i < |s| ==> IsDigit(s[i])
  }

  /** The value of a string of decimal digits. */
  function ParseDigits(s: string): nat
    requires AllDigits(s)
  {
    if s == [] then 0 else 10 * ParseDigits(s[..|s| - 1]) + DigitValue(s[|s| - 1])
  }

  /** Reading back a rendered number gives the number. */
  lemma {:induction false} ParseNatToString(n: nat)
    ensures ParseDigits(NatToString(n)) == n
  {
    var r := NatToString(n);
    if n >= 10 {
      ParseNatToString(n / 10);
      assert r[..|r| - 1] == NatToString(n / 10);
    }
  }

  /** Different numbers render differently. */
  lemma NatToStringInjective(a: nat, b: nat)
    ensures NatToString(a) == NatToString(b) ==> a == b
  {
    ParseNatToString(a);
    ParseNatToString(b);
  }

  /** `s.split(sep)`: the pieces between separators, at least one. */
  function Split(s: string, sep: char): (r: seq<string>)
    ensures |r| >= 1
    ensures forall i :: 0 <= i < |r| ==> sep !in r[i]
  {
    if s == [] then [[]]
    else
      var rest := Split(s[1..], sep);
      if s[0] == sep then [[]] + rest else [[s[0]] + rest[0]] + rest[1..]
  }

  function Join(parts: seq<string>, sep: char): string
    requires |parts| >= 1
  {
    if |parts| == 1 then parts[0] else parts[0] + [sep] + Join(parts[1..], sep)
  }

  /** Splitting loses nothing: joining the pieces gives the string back. */
  lemma {:induction false} SplitJoin(s: string, sep: char)
    ensures Join(Split(s, sep), sep) == s
  {
    if s != [] {
      var rest := Split(s[1..], sep);
      SplitJoin(s[1..], sep);
      if s[0] == sep {
        assert Split(s, sep)[1..] == rest;
      } else {
        var r := Split(s, sep);
        if |rest| == 1 {
          assert r == [[s[0]] + rest[0]];
        } else {
          assert r[1..] == rest[1..];
          assert Join(rest, sep) == rest[0] + [sep] + Join(rest[1..], sep);
        }
      }
    }
  }

  /** There is one more piece than there are separators. */
  lemma {:induction false} SplitCount(s: string, sep: char)
    ensures |Split(s, sep)| == multiset(s)[sep] + 1
  {
    if s != [] {
      SplitCount(s[1..], sep);
      assert s == [s[0]] + s[1..];
    }
  }
}

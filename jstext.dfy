// The JavaScript string operations the maze's file parsers use: splitting on
// line breaks and on a separator, the comment-stripping regular expression
// the map and INI parsers share, the regular-expression classes `\s` and
// `\w`, ASCII lower-casing, trimming, `parseInt(s, 10)` and decimal
// formatting of a counter.
module JsText {
  import opened Js

  /** A line terminator, which the regular-expression `.` does not match. */
  predicate IsLineTerminator(c: char) {
    c == '\n' || c == '\r' || c == '\U{2028}' || c == '\U{2029}'
  }

  /** The regular-expression class `\s`: white space and line terminators. */
  predicate IsJsSpace(c: char) {
    c == ' ' || c == '\t' || c == '\U{000B}' || c == '\U{000C}' || c == '\U{00A0}' || c == '\U{FEFF}'
    || c == '\U{1680}' || ('\U{2000}' <= c <= '\U{200A}') || c == '\U{202F}' || c == '\U{205F}' || c == '\U{3000}'
    || IsLineTerminator(c)
  }

  /** The regular-expression class `\w`. */
  predicate IsWordChar(c: char) {
    ('a' <= c <= 'z') || ('A' <= c <= 'Z') || ('0' <= c <= '9') || c == '_'
  }

  predicate IsDigit(c: char) { '0' <= c <= '9' }

  predicate HasLineTerminator(s: string) {
    exists i :: 0 <= i < |s| && IsLineTerminator(s[i])
  }

  // ---------------------------------------------------------------------------
  // Splitting and joining

  /** Index of the first '\r' or '\n' at or after i, or |s| if there is none. */
  function FirstBreak(s: string, i: nat): (k: nat)
    requires i <= |s|
    ensures i <= k <= |s|
    ensures forall j :: i <= j < k ==> s[j] != '\r' && s[j] != '\n'
    ensures k < |s| ==> s[k] == '\r' || s[k] == '\n'
    decreases |s| - i
  {
    if i == |s| || s[i] == '\r' || s[i] == '\n' then i else FirstBreak(s, i + 1)
  }

  predicate NoBreak(s: string) {
    forall j :: 0 <= j < |s| ==> s[j] != '\r' && s[j] != '\n'
  }

  /** `s.split(/\r\n|\r|\n/)`. */
  function SplitLines(s: string): (r: seq<string>)
    ensures |r| >= 1
    ensures forall i :: 0 <= i < |r| ==> NoBreak(r[i])
    decreases |s|
  {
    var k := FirstBreak(s, 0);
    if k == |s| then [s]
    else
      var width := if s[k] == '\r' && k + 1 < |s| && s[k + 1] == '\n' then 2 else 1;
      [s[..k]] + SplitLines(s[k + width..])
  }

  /** Index of the first c at or after i, or |s|. */
  function FirstOf(s: string, c: char, i: nat): (k: nat)
    requires i <= |s|
    ensures i <= k <= |s|
    ensures forall j :: i <= j < k ==> s[j] != c
    ensures k < |s| ==> s[k] == c
    decreases |s| - i
  {
    if i == |s| || s[i] == c then i else FirstOf(s, c, i + 1)
  }

  /** `s.split(c)` for a one-character separator. */
  function SplitOn(s: string, c: char): (r: seq<string>)
    ensures |r| >= 1
    ensures forall i :: 0 <= i < |r| ==> c !in r[i]
    decreases |s|
  {
    var k := FirstOf(s, c, 0);
    if k == |s| then [s] else [s[..k]] + SplitOn(s[k + 1..], c)
  }

  /** `parts.join(sep)`. */
  function Join(parts: seq<string>, sep: string): string
  {
    if parts == [] then "" else if |parts| == 1 then parts[0] else parts[0] + sep + Join(parts[1..], sep)
  }

  lemma {:induction false} SplitOnJoin(s: string, c: char)
    ensures Join(SplitOn(s, c), [c]) == s
    decreases |s|
  {
    var k := FirstOf(s, c, 0);
    if k < |s| {
      SplitOnJoin(s[k + 1..], c);
      assert s == s[..k] + [c] + s[k + 1..];
    }
  }

  /** Without carriage returns, splitting into lines and joining with "\n" gives the text back. */
  lemma {:induction false} SplitLinesJoin(s: string)
    requires '\r' !in s
    ensures Join(SplitLines(s), "\n") == s
    decreases |s|
  {
    var k := FirstBreak(s, 0);
    if k < |s| {
      assert s[k] == '\n';
      var t := s[k + 1..];
      assert forall j :: 0 <= j < |t| ==> t[j] == s[k + 1 + j];
      SplitLinesJoin(t);
      assert s == s[..k] + "\n" + s[k + 1..];
    }
  }

  lemma {:induction false} FirstBreakAt(s: string, i: nat, k: nat)
    requires i <= k <= |s|
    requires forall j :: i <= j < k ==> s[j] != '\r' && s[j] != '\n'
    requires k < |s| ==> s[k] == '\r' || s[k] == '\n'
    ensures FirstBreak(s, i) == k
    decreases k - i
  {
    if i < k { FirstBreakAt(s, i + 1, k); }
  }

  /** Joining lines without breaks by "\n" and splitting again gives the lines back. */
  lemma {:induction false} SplitLinesOfJoin(parts: seq<string>)
    requires |parts| >= 1
    requires forall i :: 0 <= i < |parts| ==> NoBreak(parts[i])
    ensures SplitLines(Join(parts, "\n")) == parts
    decreases |parts|
  {
    var p := parts[0];
    if |parts| == 1 {
      FirstBreakAt(p, 0, |p|);
    } else {
      var rest := Join(parts[1..], "\n");
      var s := p + "\n" + rest;
      assert Join(parts, "\n") == s;
      assert forall j :: 0 <= j < |p| ==> s[j] == p[j];
      assert s[|p|] == '\n';
      FirstBreakAt(s, 0, |p|);
      assert s[..|p|] == p;
      assert s[|p| + 1..] == rest;
      SplitLinesOfJoin(parts[1..]);
      assert parts == [p] + parts[1..];
    }
  }

  // ---------------------------------------------------------------------------
  // The comment-stripping expression /(\/\*([\s\S]*?)\*\/)|(\/\/(.*)$)/g

  // The first position j >= i where the closing "*" "/" pair starts, if any.
  function CloseAt(s: string, i: nat): (r: Option<nat>)
    requires i <= |s|
    ensures r.Some? ==> i <= r.value && r.value + 2 <= |s| && s[r.value] == '*' && s[r.value + 1] == '/'
    ensures r.Some? ==> forall j :: i <= j < r.value ==> !(s[j] == '*' && s[j + 1] == '/')
    ensures r.None? ==> forall j :: i <= j < |s| - 1 ==> !(s[j] == '*' && s[j + 1] == '/')
    decreases |s| - i
  {
    if i + 2 > |s| then None
    else if s[i] == '*' && s[i + 1] == '/' then Some(i)
    else CloseAt(s, i + 1)
  }

  // `s.replace(/(\/\*([\s\S]*?)\*\/)|(\/\/(.*)$)/g, '')`: scanning from the
  // left, an opening "/" "*" that has a later closing "*" "/" is removed up to
  // the nearest closing pair; a "//" whose remainder holds no line terminator
  // is removed with that remainder; any other character is kept.
  function StripComments(s: string): (r: string)
    ensures |r| <= |s|
    decreases |s|
  {
    if |s| >= 2 && s[0] == '/' && s[1] == '*' && CloseAt(s, 2).Some? then
      StripComments(s[CloseAt(s, 2).value + 2..])
    else if |s| >= 2 && s[0] == '/' && s[1] == '/' && !HasLineTerminator(s[2..]) then
      ""
    else if s == [] then ""
    else [s[0]] + StripComments(s[1..])
  }

  /** Text with no '/' holds no comment and is left as it is. */
  lemma {:induction false} StripCommentsNoSlash(s: string)
    requires '/' !in s
    ensures StripComments(s) == s
    decreases |s|
  {
    if s != [] {
      assert '/' !in s[1..] by {
        forall j | 0 <= j < |s| - 1 ensures s[1..][j] != '/' { assert s[1..][j] == s[j + 1]; }
      }
      StripCommentsNoSlash(s[1..]);
    }
  }

  /** Text in front of a comment survives and the comment goes. */
  lemma {:induction false} StripCommentsPrefix(p: string, rest: string)
    requires '/' !in p
    ensures StripComments(p + rest) == p + StripComments(rest)
    decreases |p|
  {
    if p != [] {
      assert (p + rest)[0] == p[0] && p[0] != '/';
      assert (p + rest)[1..] == p[1..] + rest;
      assert '/' !in p[1..] by {
        forall j | 0 <= j < |p| - 1 ensures p[1..][j] != '/' { assert p[1..][j] == p[j + 1]; }
      }
      StripCommentsPrefix(p[1..], rest);
      StripCommentsKeeps(p + rest);
      assert p == [p[0]] + p[1..];
    } else {
      assert p + rest == rest;
    }
  }

  /** A first character other than '/' starts no comment and is kept. */
  lemma StripCommentsKeeps(s: string)
    requires s != [] && s[0] != '/'
    ensures StripComments(s) == [s[0]] + StripComments(s[1..])
  {
  }

  lemma LineCommentRemoved(tail: string)
    requires !HasLineTerminator(tail)
    ensures StripComments("//" + tail) == ""
  {
    assert ("//" + tail)[2..] == tail;
  }

  // ---------------------------------------------------------------------------
  // Case, trimming, numbers

  /** `toLowerCase()` on the ASCII letters; every other character is kept. */
  function LowerChar(c: char): (r: char)
    ensures 'A' <= c <= 'Z' ==> r as int == c as int + 32
    ensures !('A' <= c <= 'Z') ==> r == c
  {
    if 'A' <= c <= 'Z' then (c as int + 32) as char else c
  }

  function Lower(s: string): (r: string)
    ensures |r| == |s|
    ensures forall i :: 0 <= i < |s| ==> r[i] == LowerChar(s[i])
  {
    if s == [] then "" else [LowerChar(s[0])] + Lower(s[1..])
  }

  lemma {:induction false} LowerAppend(a: string, b: string)
    ensures Lower(a + b) == Lower(a) + Lower(b)
  {
    assert |Lower(a + b)| == |Lower(a) + Lower(b)|;
    forall i | 0 <= i < |a| + |b| ensures Lower(a + b)[i] == (Lower(a) + Lower(b))[i] {
      if i < |a| { assert (a + b)[i] == a[i]; } else { assert (a + b)[i] == b[i - |a|]; }
    }
  }

  /** Index of the first character at or after i that is not in `\s`, or |s|. */
  function SkipSpace(s: string, i: nat): (k: nat)
    requires i <= |s|
    ensures i <= k <= |s|
    ensures forall j :: i <= j < k ==> IsJsSpace(s[j])
    ensures k < |s| ==> !IsJsSpace(s[k])
    decreases |s| - i
  {
    if i == |s| || !IsJsSpace(s[i]) then i else SkipSpace(s, i + 1)
  }

  /** `trimStart`: s with its leading `\s` run removed; what is kept is a suffix starting with no white space. */
  function TrimStart(s: string): (r: string)
    ensures |r| <= |s| && r == s[|s| - |r|..]
    ensures forall j :: 0 <= j < |s| - |r| ==> IsJsSpace(s[j])
    ensures r == [] || !IsJsSpace(r[0])
  {
    s[SkipSpace(s, 0)..]
  }

  /** Length of s without its trailing `\s` characters. */
  function EndOfText(s: string, k: nat): (e: nat)
    requires k <= |s|
    ensures e <= k
    ensures forall j :: e <= j < k ==> IsJsSpace(s[j])
    ensures e > 0 ==> !IsJsSpace(s[e - 1])
    decreases k
  {
    if k == 0 || !IsJsSpace(s[k - 1]) then k else EndOfText(s, k - 1)
  }

  /** `trimEnd`: s with its trailing `\s` run removed; what is kept is a prefix ending in no white space. */
  function TrimEnd(s: string): (r: string)
    ensures |r| <= |s| && r == s[..|r|]
    ensures forall j :: |r| <= j < |s| ==> IsJsSpace(s[j])
    ensures r == [] || !IsJsSpace(r[|r| - 1])
  {
    s[..EndOfText(s, |s|)]
  }

  /** Length of the run of decimal digits at the front of s. */
  function DigitRun(s: string): (n: nat)
    ensures n <= |s|
    ensures forall j :: 0 <= j < n ==> IsDigit(s[j])
    ensures n < |s| ==> !IsDigit(s[n])
  {
    if s == [] || !IsDigit(s[0]) then 0 else 1 + DigitRun(s[1..])
  }

  /** The value of a string of decimal digits, most significant first. */
  function DigitsValue(d: string): (v: nat)
    requires forall j :: 0 <= j < |d| ==> IsDigit(d[j])
  {
    if d == [] then 0
    else
      var last := d[|d| - 1];
      assert IsDigit(last);
      10 * DigitsValue(d[..|d| - 1]) + (last as int - '0' as int)
  }

  /**
   * `parseInt(s, 10)`: leading `\s` is skipped, then an optional sign and the
   * longest run of decimal digits are read; no digits gives NaN (None).
   */
  function ParseIntDec(s: string): (r: Option<int>)
    ensures r.Some? <==> DigitRun(SignedPart(TrimStart(s)).1) > 0
  {
    var t := TrimStart(s);
    var (negative, body) := SignedPart(t);
    var n := DigitRun(body);
    if n == 0 then None
    else
      var v: int := DigitsValue(body[..n]);
      Some(if negative then -v else v)
  }

  function SignedPart(t: string): (bool, string)
  {
    if |t| > 0 && t[0] == '-' then (true, t[1..])
    else if |t| > 0 && t[0] == '+' then (false, t[1..])
    else (false, t)
  }

  /** `parseInt(v, 10)` of a property that may be undefined: undefined reads as NaN. */
  function ParseIntValue(v: Option<string>): (r: Option<int>)
    ensures v.None? ==> r.None?
    ensures v.Some? ==> r == ParseIntDec(v.value)
  {
    if v.None? then None else ParseIntDec(v.value)
  }

  /** The decimal digits of n, as `"" + n` writes them. */
  function NatToString(n: nat): (s: string)
    ensures |s| >= 1
    ensures forall j :: 0 <= j < |s| ==> IsDigit(s[j])
  {
    if n < 10 then [('0' as int + n) as char] else NatToString(n / 10) + [('0' as int + n % 10) as char]
  }

  lemma {:induction false} DigitsOfNat(n: nat)
    ensures DigitsValue(NatToString(n)) == n
  {
    var s := NatToString(n);
    if n >= 10 {
      DigitsOfNat(n / 10);
      assert s[..|s| - 1] == NatToString(n / 10);
    }
  }

  /** Reading back the decimal form of a counter gives the counter: parseInt("" + n, 10) == n. */
  lemma ParseIntOfNat(n: nat)
    ensures ParseIntDec(NatToString(n)) == Some(n)
  {
    var s := NatToString(n);
    assert SkipSpace(s, 0) == 0 by { assert !IsJsSpace(s[0]); }
    assert TrimStart(s) == s;
    assert SignedPart(s) == (false, s) by { assert IsDigit(s[0]); }
    DigitRunAll(s);
    assert s[..|s|] == s;
    DigitsOfNat(n);
  }

  /** The decimal form of an integer, with a '-' in front when negative. */
  function IntToString(i: int): (s: string)
    ensures |s| >= 1
  {
    if i < 0 then "-" + NatToString(-i) else NatToString(i)
  }

  /** `parseInt` reads an integer's decimal form back as that integer. */
  lemma ParseIntOfInt(i: int)
    ensures ParseIntDec(IntToString(i)) == Some(i)
  {
    if i >= 0 {
      ParseIntOfNat(i);
    } else {
      var d := NatToString(-i);
      var s := "-" + d;
      assert SkipSpace(s, 0) == 0 by { assert !IsJsSpace(s[0]); }
      assert TrimStart(s) == s;
      assert s[1..] == d;
      assert SignedPart(s) == (true, d);
      DigitRunAll(d);
      assert d[..|d|] == d;
      DigitsOfNat(-i);
    }
  }

  lemma {:induction false} DigitRunAll(s: string)
    requires forall j :: 0 <= j < |s| ==> IsDigit(s[j])
    ensures DigitRun(s) == |s|
  {
    if s != [] { DigitRunAll(s[1..]); }
  }

  /** The UTF-16 code unit `s.charCodeAt(0)` reads: the high surrogate for characters above U+FFFF. */
  function CodeUnit0(s: string): (r: Option<int>)
    ensures s == [] <==> r.None?
    ensures r.Some? ==> 0 <= r.value < 0x10000
    ensures s != [] && (s[0] as int) < 0x10000 ==> r == Some(s[0] as int)
  {
    if s == [] then None
    else if (s[0] as int) < 0x10000 then Some(s[0] as int)
    else Some(0xD800 + (s[0] as int - 0x10000) / 0x400)
  }
}

// `IniFile.parseIniString`: Windows-style INI text to a two-level object.
// The three regular expressions are written out as matching functions:
//   comment  ^\s*;.*$
//   param    ^\s*([\w.\-_]+)\s*=\s*(.*?)\s*$
//   section  ^\s*\[\s*([^\]]*)\s*\]\s*$
// A `.` matches anything but a line terminator, `\s` any white space or line
// terminator, and `$` (no multi-line flag) only the end of the line.
module IniFile {
  import opened Js
  import opened JsText

  /** A top-level property of the parsed object: a string value or a section object. */
  datatype IniValue = Str(text: string) | Section(entries: map<string, string>)

  type IniObj = map<string, IniValue>

  // ---------------------------------------------------------------------------
  // Matching one line

  predicate IsKeyChar(c: char) {
    IsWordChar(c) || c == '.' || c == '-'
  }

  /** The end of the run of key characters starting at i. */
  function KeyEnd(s: string, i: nat): (k: nat)
    requires i <= |s|
    ensures i <= k <= |s|
    ensures forall j :: i <= j < k ==> IsKeyChar(s[j])
    ensures k < |s| ==> !IsKeyChar(s[k])
    decreases |s| - i
  {
    if i == |s| || !IsKeyChar(s[i]) then i else KeyEnd(s, i + 1)
  }

  /** The first ']' at or after i, or |s|. */
  function CloseBracket(s: string, i: nat): (k: nat)
    requires i <= |s|
    ensures i <= k <= |s|
    ensures forall j :: i <= j < k ==> s[j] != ']'
    ensures k < |s| ==> s[k] == ']'
    decreases |s| - i
  {
    if i == |s| || s[i] == ']' then i else CloseBracket(s, i + 1)
  }

  predicate AllSpace(s: string) {
    forall j :: 0 <= j < |s| ==> IsJsSpace(s[j])
  }

  /** `^\s*;.*$`: after any white space a ';' and then no line terminator. */
  predicate MatchComment(line: string) {
    var t := TrimStart(line);
    |t| > 0 && t[0] == ';' && !HasLineTerminator(t[1..])
  }

  /** `\s*(.*?)\s*$` on the text after '=': the trimmed text, if it holds no line terminator. */
  function ParamValue(rest: string): (v: Option<string>)
    ensures v.Some? ==> !HasLineTerminator(v.value)
    ensures v.Some? && v.value != "" ==> !IsJsSpace(v.value[0]) && !IsJsSpace(v.value[|v.value| - 1])
  {
    var t := TrimEnd(TrimStart(rest));
    if HasLineTerminator(t) then None
    else
      assert t != "" ==> t[0] == TrimStart(rest)[0];
      Some(t)
  }

  /** `^\s*([\w.\-_]+)\s*=\s*(.*?)\s*$`: the key (a non-empty run of key characters) and the trimmed value. */
  function MatchParam(line: string): (r: Option<(string, string)>)
    ensures r.Some? ==> |r.value.0| > 0 && forall j :: 0 <= j < |r.value.0| ==> IsKeyChar(r.value.0[j])
    ensures r.Some? ==> !HasLineTerminator(r.value.1)
  {
    MatchParamWith(line, ParamValue)
  }

  /** The scan of `MatchParam`, with the reader of the text after the '=' as a parameter. */
  function MatchParamWith(line: string, value: string -> Option<string>): Option<(string, string)> {
    var i := SkipSpace(line, 0);
    var j := KeyEnd(line, i);
    var k := SkipSpace(line, j);
    if j == i || k == |line| || line[k] != '=' then None
    else KeyValue(line[i..j], value(line[k + 1..]))
  }

  /** The key paired with its value, when the value could be read. */
  function KeyValue(key: string, value: Option<string>): (r: Option<(string, string)>)
    ensures r.Some? <==> value.Some?
    ensures r.Some? ==> r.value == (key, value.value)
  {
    match value
    case None => None
    case Some(v) => Some((key, v))
  }

  /**
   * `^\s*\[\s*([^\]]*)\s*\]\s*$`: after any white space a '[', then up to the
   * first ']', then only white space. The name is the text between the
   * brackets without its leading white space; its trailing white space stays.
   */
  function MatchSection(line: string): (r: Option<string>)
    ensures r.Some? ==> ']' !in r.value
    ensures r.Some? && r.value != "" ==> !IsJsSpace(r.value[0])
  {
    var i := SkipSpace(line, 0);
    if i == |line| || line[i] != '[' then None
    else
      var j := CloseBracket(line, i + 1);
      if j == |line| || !AllSpace(line[j + 1..]) then None
      else
        var inner := line[i + 1..j];
        var name := TrimStart(inner);
        TrimmedKeepsNoBracket(line, i + 1, j);
        Some(name)
  }

  /** Trimming the front of a stretch without ']' leaves a name without ']' that starts with no white space. */
  lemma TrimmedKeepsNoBracket(s: string, a: nat, b: nat)
    requires a <= b <= |s|
    requires forall q :: a <= q < b ==> s[q] != ']'
    ensures ']' !in TrimStart(s[a..b])
    ensures TrimStart(s[a..b]) != "" ==> !IsJsSpace(TrimStart(s[a..b])[0])
  {
    var inner := s[a..b];
    var k := SkipSpace(inner, 0);
    var t := inner[k..];
    forall q | 0 <= q < |t| ensures t[q] != ']' {
      assert t[q] == inner[k + q] == s[a + k + q];
    }
  }

  /** What a line (with its comments removed) is, trying the three expressions in the source's order. */
  datatype LineKind = CommentLine | ParamLine(key: string, value: string) | SectionLine(name: string) | EmptyLine | OtherLine

  function Classify(clean: string): (k: LineKind)
    ensures k.CommentLine? <==> MatchComment(clean)
    ensures k.ParamLine? ==> !MatchComment(clean) && MatchParam(clean) == Some((k.key, k.value))
    ensures k.SectionLine? ==> !MatchComment(clean) && MatchParam(clean).None? && MatchSection(clean) == Some(k.name)
    ensures k.EmptyLine? <==> clean == ""
  {
    if MatchComment(clean) then CommentLine
    else if MatchParam(clean).Some? then ParamLine(MatchParam(clean).value.0, MatchParam(clean).value.1)
    else if MatchSection(clean).Some? then SectionLine(MatchSection(clean).value)
    else if clean == "" then EmptyLine
    else OtherLine
  }

  // ---------------------------------------------------------------------------
  // The parse

  /**
   * The parser's state between lines: the object built so far and the
   * current section, "" when none is open (null, or a section named "",
   * which JavaScript treats as false).
   */
  datatype IniState = IniState(obj: IniObj, section: string)

  /** While a section is open, its object exists. */
  predicate Open(st: IniState) {
    st.section != "" ==> st.section in st.obj && st.obj[st.section].Section?
  }

  /** One line of the `forEach` (IniFile.js:73-91). */
  function Step(st: IniState, line: string): (r: IniState)
  {
    match Classify(StripComments(line))
    case CommentLine => st
    case ParamLine(key, value) =>
      if st.section != "" then
        if st.section in st.obj && st.obj[st.section].Section? then
          IniState(st.obj[st.section := Section(st.obj[st.section].entries[key := value])], st.section)
        else st   // unreachable while Open holds
      else IniState(st.obj[key := Str(value)], st.section)
    case SectionLine(name) => IniState(st.obj[name := Section(map[])], name)
    case EmptyLine => IniState(st.obj, "")
    case OtherLine => st
  }

  function Fold(st: IniState, lines: seq<string>): IniState
  {
    if lines == [] then st else Step(Fold(st, lines[..|lines| - 1]), lines[|lines| - 1])
  }

  const Start: IniState := IniState(map[], "")

  /** The object `parseIniString(data)` returns. */
  function ParseSpec(data: string): IniObj {
    Fold(Start, SplitLines(data)).obj
  }

  /** `parseIniString(data)`: split into lines and apply each in turn. */
  method ParseIniString(data: string) returns (iniObj: IniObj)
    ensures iniObj == ParseSpec(data)
  {
    var lines := SplitLines(data);
    iniObj := map[];
    var section := "";
    var i := 0;
    while i < |lines|
      invariant 0 <= i <= |lines|
      invariant IniState(iniObj, section) == Fold(Start, lines[..i])
    {
      ghost var before := IniState(iniObj, section);
      iniObj, section := ParseLine(iniObj, section, lines[i]);
      FoldNext(lines, i, before, IniState(iniObj, section));
      i := i + 1;
    }
    assert lines[..i] == lines;
  }

  /** The fold over one more line is one more step. */
  lemma FoldNext(lines: seq<string>, i: nat, st: IniState, st': IniState)
    requires i < |lines| && st == Fold(Start, lines[..i]) && st' == Step(st, lines[i])
    ensures st' == Fold(Start, lines[..i + 1])
  {
    assert lines[..i + 1][..i] == lines[..i];
  }

  /** One pass of the `forEach` of `parseIniString`: the line with its comments removed, matched against the three expressions. */
  method ParseLine(iniObj: IniObj, section: string, line: string) returns (obj: IniObj, sec: string)
    ensures IniState(obj, sec) == Step(IniState(iniObj, section), line)
  {
    obj, sec := iniObj, section;
    var cleanLine := StripComments(line);
    if MatchComment(cleanLine) {
    } else if MatchParam(cleanLine).Some? {
      var (key, value) := MatchParam(cleanLine).value;
      if section != "" {
        if section in iniObj && iniObj[section].Section? {
          obj := iniObj[section := Section(iniObj[section].entries[key := value])];
        }
      } else {
        obj := iniObj[key := Str(value)];
      }
    } else if MatchSection(cleanLine).Some? {
      var name := MatchSection(cleanLine).value;
      obj := iniObj[name := Section(map[])];
      sec := name;
    } else if |cleanLine| == 0 && section != "" {
      sec := "";
    }
  }

  // ---------------------------------------------------------------------------
  // What the parse promises

  /** Every step keeps the open section's object in place. */
  lemma StepKeepsOpen(st: IniState, line: string)
    requires Open(st)
    ensures Open(Step(st, line))
  {
  }

  lemma {:induction false} FoldKeepsOpen(st: IniState, lines: seq<string>)
    requires Open(st)
    ensures Open(Fold(st, lines))
  {
    if lines != [] {
      FoldKeepsOpen(st, lines[..|lines| - 1]);
      StepKeepsOpen(Fold(st, lines[..|lines| - 1]), lines[|lines| - 1]);
    }
  }

  /** A comment line changes nothing. */
  lemma CommentIgnored(st: IniState, line: string)
    requires MatchComment(StripComments(line))
    ensures Step(st, line) == st
  {
  }

  /**
   * A `key = value` line stores the value in the open section, leaving every
   * other property alone, or at the top level when no section is open.
   */
  lemma ParamStored(st: IniState, line: string, key: string, value: string)
    requires Open(st)
    requires !MatchComment(StripComments(line)) && MatchParam(StripComments(line)) == Some((key, value))
    ensures var r := Step(st, line);
      && r.section == st.section
      && (st.section != "" ==>
            && r.obj[st.section].Section? && r.obj[st.section].entries == st.obj[st.section].entries[key := value]
            && forall n :: n in st.obj && n != st.section ==> n in r.obj && r.obj[n] == st.obj[n])
      && (st.section == "" ==> r.obj == st.obj[key := Str(value)])
  {
  }

  /** A section header opens a fresh, empty section, replacing any earlier one of that name. */
  lemma SectionOpensFresh(st: IniState, line: string, name: string)
    requires !MatchComment(StripComments(line)) && MatchParam(StripComments(line)).None?
    requires MatchSection(StripComments(line)) == Some(name)
    ensures Step(st, line) == IniState(st.obj[name := Section(map[])], name)
  {
  }

  /** A line that is empty once its comments are gone closes the section. */
  lemma EmptyLineCloses(st: IniState, line: string)
    requires StripComments(line) == ""
    ensures Step(st, line) == IniState(st.obj, "")
  {
    assert !MatchComment("");
  }

  /** A line of white space only is none of the three forms, so it leaves the section open. */
  lemma BlankLineKeepsSection(st: IniState, line: string)
    requires line != [] && AllSpace(line)
    ensures Step(st, line) == st
  {
    StripCommentsNoSlash(line) by {
      forall j | 0 <= j < |line| ensures line[j] != '/' { assert IsJsSpace(line[j]); }
    }
    SkipAllSpace(line, 0);
    assert TrimStart(line) == "";
  }

  lemma {:induction false} SkipAllSpace(s: string, i: nat)
    requires i <= |s| && AllSpace(s)
    ensures SkipSpace(s, i) == |s|
    decreases |s| - i
  {
    if i < |s| { SkipAllSpace(s, i + 1); }
  }

  /** Of two assignments to one key in the same section, the later one wins. */
  lemma LaterAssignmentWins(st: IniState, l1: string, l2: string, key: string, v1: string, v2: string)
    requires Open(st) && st.section != ""
    requires Classify(StripComments(l1)) == ParamLine(key, v1)
    requires Classify(StripComments(l2)) == ParamLine(key, v2)
    ensures var r := Step(Step(st, l1), l2);
      r.section == st.section && r.obj[st.section].Section? && key in r.obj[st.section].entries &&
      r.obj[st.section].entries[key] == v2
  {
    StepKeepsOpen(st, l1);
  }

  // ---------------------------------------------------------------------------
  // Writing a line and reading it back

  lemma {:induction false} SkipSpaceAt(s: string, i: nat, j: nat)
    requires i <= j <= |s|
    requires forall q :: i <= q < j ==> IsJsSpace(s[q])
    requires j < |s| ==> !IsJsSpace(s[j])
    ensures SkipSpace(s, i) == j
    decreases j - i
  {
    if i < j { SkipSpaceAt(s, i + 1, j); }
  }

  lemma {:induction false} KeyEndAt(s: string, i: nat, j: nat)
    requires i <= j <= |s|
    requires forall q :: i <= q < j ==> IsKeyChar(s[q])
    requires j < |s| ==> !IsKeyChar(s[j])
    ensures KeyEnd(s, i) == j
    decreases j - i
  {
    if i < j { KeyEndAt(s, i + 1, j); }
  }

  lemma {:induction false} EndOfTextAt(s: string, e: nat, k: nat)
    requires e <= k <= |s|
    requires forall q :: e <= q < k ==> IsJsSpace(s[q])
    requires e > 0 ==> !IsJsSpace(s[e - 1])
    ensures EndOfText(s, k) == e
    decreases k - e
  {
    if e < k { EndOfTextAt(s, e, k - 1); }
  }

  /** A value with no line terminator and no white space at either end. */
  predicate CleanValue(v: string) {
    !HasLineTerminator(v) && (v != "" ==> !IsJsSpace(v[0]) && !IsJsSpace(v[|v| - 1]))
  }

  predicate IsKey(k: string) {
    |k| > 0 && forall j :: 0 <= j < |k| ==> IsKeyChar(k[j])
  }

  /** The value read back from white space, the value and more white space is the value. */
  lemma ParamValueOf(ws3: string, value: string, ws4: string)
    requires AllSpace(ws3) && AllSpace(ws4) && CleanValue(value)
    ensures ParamValue(ws3 + value + ws4) == Some(value)
  {
    var rest := ws3 + value + ws4;
    if value == "" {
      assert AllSpace(rest) by {
        forall q | 0 <= q < |rest| ensures IsJsSpace(rest[q]) {
          if q < |ws3| { assert rest[q] == ws3[q]; } else { assert rest[q] == ws4[q - |ws3|]; }
        }
      }
      SkipAllSpace(rest, 0);
      assert TrimStart(rest) == "";
    } else {
      assert rest[|ws3|] == value[0];
      SkipSpaceAt(rest, 0, |ws3|);
      var u := TrimStart(rest);
      assert u == value + ws4;
      assert u[|value| - 1] == value[|value| - 1];
      EndOfTextAt(u, |value|, |u|);
      assert TrimEnd(u) == value;
    }
  }

  /** `key = value` written with any white space around it reads back as that key and value. */
  lemma ParamRoundTrip(ws1: string, key: string, ws2: string, ws3: string, value: string, ws4: string)
    requires AllSpace(ws1) && AllSpace(ws2) && AllSpace(ws3) && AllSpace(ws4)
    requires IsKey(key) && CleanValue(value)
    ensures Classify(ws1 + key + ws2 + "=" + ws3 + value + ws4) == ParamLine(key, value)
  {
    var rest := ws3 + value + ws4;
    var line := ws1 + key + ws2 + "=" + rest;
    assert line == ws1 + key + ws2 + "=" + ws3 + value + ws4;
    MatchParamOf(ws1, key, ws2, rest);
    ParamValueOf(ws3, value, ws4);
    assert MatchParam(line) == Some((key, value));
    ParamNotComment(line, ws1, key, ws2, rest);
    ClassifyParam(line, key, value);
  }

  /** A line whose first non-space character is not ';' is no comment. */
  lemma NotComment(line: string, i: nat)
    requires i < |line| && line[i] != ';' && !IsJsSpace(line[i])
    requires forall q :: 0 <= q < i ==> IsJsSpace(line[q])
    ensures !MatchComment(line)
  {
    SkipSpaceAt(line, 0, i);
  }

  lemma ClassifyParam(line: string, key: string, value: string)
    requires !MatchComment(line) && MatchParam(line) == Some((key, value))
    ensures Classify(line) == ParamLine(key, value)
  {
  }

  lemma MatchParamOf(ws1: string, key: string, ws2: string, rest: string)
    requires AllSpace(ws1) && AllSpace(ws2) && IsKey(key)
    ensures MatchParam(ws1 + key + ws2 + "=" + rest) == KeyValue(key, ParamValue(rest))
  {
    var line := ws1 + key + ws2 + "=" + rest;
    ParamScan(line, ws1, key, ws2, rest);
    MatchParamAt(line, |ws1|, |ws1| + |key|, |ws1| + |key| + |ws2|, key, rest, ParamValue);
  }

  /** A line `MatchParam` scans to a key at [i, j) and an '=' at k reads as that key and the value after the '='. */
  lemma MatchParamAt(line: string, i: nat, j: nat, k: nat, key: string, rest: string, value: string -> Option<string>)
    requires SkipSpace(line, 0) == i && KeyEnd(line, i) == j && j != i && SkipSpace(line, j) == k
    requires k < |line| && line[k] == '=' && i <= j <= |line| && line[i..j] == key && line[k + 1..] == rest
    ensures MatchParamWith(line, value) == KeyValue(key, value(rest))
  {
  }

  /** How `MatchParam` scans `ws1 + key + ws2 + "=" + rest`: past ws1, past the key, past ws2 to the '='. */
  lemma ParamScan(line: string, ws1: string, key: string, ws2: string, rest: string)
    requires AllSpace(ws1) && AllSpace(ws2) && IsKey(key)
    requires line == ws1 + key + ws2 + "=" + rest
    ensures var i, j, k := |ws1|, |ws1| + |key|, |ws1| + |key| + |ws2|;
      SkipSpace(line, 0) == i && KeyEnd(line, i) == j && j != i && SkipSpace(line, j) == k
      && k < |line| && line[k] == '=' && line[i..j] == key && line[k + 1..] == rest
  {
    var i := |ws1|;
    var j := i + |key|;
    var k := j + |ws2|;
    ParamLayout(line, ws1, key, ws2, rest);
    assert !IsJsSpace(key[0]);
    SkipSpaceAt(line, 0, i);
    KeyEndAt(line, i, j);
    SkipSpaceAt(line, j, k);
  }

  /** A line that starts, after white space, with a key is no comment. */
  lemma ParamNotComment(line: string, ws1: string, key: string, ws2: string, rest: string)
    requires AllSpace(ws1) && IsKey(key)
    requires line == ws1 + key + ws2 + "=" + rest
    ensures !MatchComment(line)
  {
    ParamLayout(line, ws1, key, ws2, rest);
    assert line[|ws1|] == line[|ws1|..|ws1| + |key|][0] == key[0];
    NotComment(line, |ws1|);
  }

  /** Where the parts of `ws1 + key + ws2 + "=" + rest` lie. */
  lemma ParamLayout(line: string, ws1: string, key: string, ws2: string, rest: string)
    requires line == ws1 + key + ws2 + "=" + rest
    ensures var i, j, k := |ws1|, |ws1| + |key|, |ws1| + |key| + |ws2|;
      k < |line| && line[k] == '=' && line[i..j] == key && line[k + 1..] == rest
      && (forall q :: 0 <= q < i ==> line[q] == ws1[q])
      && (forall q :: i <= q < j ==> line[q] == key[q - i])
      && (forall q :: j <= q < k ==> line[q] == ws2[q - j])
  {
    var i := |ws1|;
    var j := i + |key|;
    var k := j + |ws2|;
    assert forall q :: 0 <= q < i ==> line[q] == ws1[q];
    assert forall q :: i <= q < j ==> line[q] == key[q - i];
    assert forall q :: j <= q < k ==> line[q] == ws2[q - j];
    assert line[k] == '=';
    assert line[i..j] == key;
    assert line[k + 1..] == rest;
  }

  /** `[name]` written with any white space around its parts reads back as that section name. */
  lemma SectionRoundTrip(ws1: string, ws2: string, name: string, ws3: string)
    requires AllSpace(ws1) && AllSpace(ws2) && AllSpace(ws3)
    requires ']' !in name && (name != "" ==> !IsJsSpace(name[0]))
    ensures Classify(ws1 + "[" + ws2 + name + "]" + ws3) == SectionLine(name)
  {
    var line := ws1 + "[" + ws2 + name + "]" + ws3;
    var i := |ws1|;
    var j := i + 1 + |ws2| + |name|;
    assert line[i + 1..j] == ws2 + name;
    assert line[j + 1..] == ws3;
    assert forall q :: 0 <= q < i ==> line[q] == ws1[q];
    assert forall q :: i + 1 <= q < j ==> line[q] == line[i + 1..j][q - i - 1];
    SectionAt(line, i, j);
    TrimSpacePrefix(ws2, name);
  }

  /** A line laid out as white space, '[', text without ']', ']' and white space is that section. */
  lemma SectionAt(line: string, i: nat, j: nat)
    requires i < j < |line| && line[i] == '[' && line[j] == ']'
    requires forall q :: 0 <= q < i ==> IsJsSpace(line[q])
    requires forall q :: i < q < j ==> line[q] != ']'
    requires AllSpace(line[j + 1..])
    ensures Classify(line) == SectionLine(TrimStart(line[i + 1..j]))
  {
    NotComment(line, i);
    SkipSpaceAt(line, 0, i);
    KeyEndAt(line, i, i);
    NoParamAt(line, i);
    CloseBracketAt(line, i + 1, j);
    SectionMatchAt(line, i, j);
    ClassifySection(line, TrimStart(line[i + 1..j]));
  }

  /** A line whose key scan stops where it starts holds no `key = value`. */
  lemma NoParamAt(line: string, i: nat)
    requires i <= |line| && SkipSpace(line, 0) == i && KeyEnd(line, i) == i
    ensures MatchParam(line).None?
  {
  }

  /** A line scanned to a '[' at i, its first ']' at j and only white space after reads as the section between them. */
  lemma SectionMatchAt(line: string, i: nat, j: nat)
    requires i < j < |line| && line[i] == '[' && SkipSpace(line, 0) == i && CloseBracket(line, i + 1) == j
    requires AllSpace(line[j + 1..])
    ensures MatchSection(line) == Some(TrimStart(line[i + 1..j]))
  {
    assert !(i == |line| || line[i] != '[');
    assert !(j == |line| || !AllSpace(line[j + 1..]));
  }

  lemma ClassifySection(line: string, name: string)
    requires !MatchComment(line) && MatchParam(line).None? && MatchSection(line) == Some(name)
    ensures Classify(line) == SectionLine(name)
  {
  }

  /** Leading white space is exactly what TrimStart drops. */
  lemma TrimSpacePrefix(ws: string, t: string)
    requires AllSpace(ws) && (t != "" ==> !IsJsSpace(t[0]))
    ensures TrimStart(ws + t) == t
  {
    var s := ws + t;
    assert forall q :: 0 <= q < |ws| ==> s[q] == ws[q];
    if t != "" { assert s[|ws|] == t[0]; }
    SkipSpaceAt(s, 0, |ws|);
    assert s[|ws|..] == t;
  }

  /** Trailing white space is exactly what TrimEnd drops. */
  lemma TrimSpaceSuffix(t: string, ws: string)
    requires AllSpace(ws) && (t != "" ==> !IsJsSpace(t[|t| - 1]))
    ensures TrimEnd(t + ws) == t
  {
    var s := t + ws;
    assert forall q :: |t| <= q < |s| ==> s[q] == ws[q - |t|];
    if t != "" { assert s[|t| - 1] == t[|t| - 1]; }
    EndOfTextAt(s, |t|, |s|);
    assert s[..|t|] == t;
  }

  lemma {:induction false} CloseBracketAt(s: string, i: nat, j: nat)
    requires i <= j < |s| && s[j] == ']'
    requires forall q :: i <= q < j ==> s[q] != ']'
    ensures CloseBracket(s, i) == j
    decreases j - i
  {
    if i < j { CloseBracketAt(s, i + 1, j); }
  }

  /**
   * A bare `key=value` line is a parameter, whatever brackets its value
   * holds (`a=[b]` stores "[b]" under "a"): the parameter form is tried
   * before the section form.
   */
  lemma BareParamLine(key: string, value: string)
    requires IsKey(key) && CleanValue(value)
    ensures Classify(key + "=" + value) == ParamLine(key, value)
  {
    assert "" + key + "" + "=" + "" + value + "" == key + "=" + value;
    ParamRoundTrip("", key, "", "", value, "");
  }
}

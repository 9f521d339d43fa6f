// The text box below the maze: word wrapping of the display text. The
// canvas's `measureText(s).width` is a function parameter `measure`.
module TextAreaBox {
  import opened JsText

  /** The left and right margin, in pixels. */
  const Margin: int := 5

  /** The wrapping state of one line: the lines emitted so far, the words gathered and the separator to put before the next word. */
  datatype LineState = LineState(emitted: seq<string>, accum: string, separator: string)

  /** One word of the inner `forEach`: it joins the gathered words iff the joined text measures below the threshold. */
  function Step(st: LineState, word: string, measure: string -> real, threshold: real): (r: LineState)
    ensures measure(st.accum + st.separator + word) < threshold ==>
      r == LineState(st.emitted, st.accum + st.separator + word, " ")
    ensures !(measure(st.accum + st.separator + word) < threshold) ==>
      r == LineState(st.emitted + [st.accum], word, " ")
  {
    var temp := st.accum + st.separator + word;
    if measure(temp) < threshold then LineState(st.emitted, temp, " ")
    else LineState(st.emitted + [st.accum], word, " ")
  }

  /** The state after the given words of a line. */
  function Fill(words: seq<string>, measure: string -> real, threshold: real): LineState
  {
    if words == [] then LineState([], "", "")
    else Step(Fill(words[..|words| - 1], measure, threshold), words[|words| - 1], measure, threshold)
  }

  /** The lines one input line wraps into: those emitted along the way, then the last gathered words. */
  function WrapLine(line: string, measure: string -> real, threshold: real): (r: seq<string>)
    ensures |r| >= 1
  {
    var st := Fill(SplitOn(line, ' '), measure, threshold);
    st.emitted + [st.accum]
  }

  /** The wrapped lines of all the input lines, in order. */
  function WrapAll(lines: seq<string>, measure: string -> real, threshold: real): (r: seq<string>)
    ensures |r| >= |lines|
  {
    if lines == [] then []
    else WrapAll(lines[..|lines| - 1], measure, threshold) + WrapLine(lines[|lines| - 1], measure, threshold)
  }

  /** Each line followed by "\n". */
  function Flatten(ls: seq<string>): (r: string)
    ensures |ls| > 0 ==> |r| > 0 && r[|r| - 1] == '\n'
  {
    if ls == [] then "" else Flatten(ls[..|ls| - 1]) + ls[|ls| - 1] + "\n"
  }

  lemma {:induction false} FlattenAppend(a: seq<string>, b: seq<string>)
    ensures Flatten(a + b) == Flatten(a) + Flatten(b)
    decreases |b|
  {
    if b == [] {
      assert a + b == a;
    } else {
      var b', l := b[..|b| - 1], b[|b| - 1];
      assert b == b' + [l];
      assert a + b == (a + b') + [l];
      FlattenAppend(a, b');
      FlattenSnoc(a + b', l);
      FlattenSnoc(b', l);
      AppendLine(Flatten(a), Flatten(b'), l);
    }
  }

  lemma FlattenSnoc(ls: seq<string>, l: string)
    ensures Flatten(ls + [l]) == Flatten(ls) + l + "\n"
  {
    assert (ls + [l])[..|ls|] == ls;
  }

  lemma AppendLine(a: string, b: string, l: string)
    ensures a + b + l + "\n" == a + (b + l + "\n")
  {
  }

  /** `s.replace(/(\r)/gm, "")`. */
  function RemoveReturns(s: string): (r: string)
    ensures '\r' !in r
    ensures forall c :: c != '\r' ==> (c in r <==> c in s)
    ensures |r| <= |s|
  {
    if s == [] then ""
    else
      var rest := RemoveReturns(s[..|s| - 1]);
      assert s == s[..|s| - 1] + [s[|s| - 1]];
      if s[|s| - 1] == '\r' then rest else rest + [s[|s| - 1]]
  }

  /** Text without carriage returns is left as it is, so removing them twice is removing them once. */
  lemma {:induction false} RemoveReturnsIdentity(s: string)
    requires '\r' !in s
    ensures RemoveReturns(s) == s
  {
    if s != [] {
      assert s[|s| - 1] in s;
      assert forall c :: c in s[..|s| - 1] ==> c in s;
      RemoveReturnsIdentity(s[..|s| - 1]);
      assert s == s[..|s| - 1] + [s[|s| - 1]];
    }
  }

  /** Every input line gives at least one output line, and the output ends with "\n". */
  lemma WrapEndsWithNewline(text: string, measure: string -> real, threshold: real)
    ensures var out := Flatten(WrapAll(SplitLines(text), measure, threshold));
      |out| > 0 && out[|out| - 1] == '\n'
    ensures |WrapAll(SplitLines(text), measure, threshold)| >= |SplitLines(text)|
  {
  }

  /** A gathered line either is one word or measured below the threshold when it was formed. */
  predicate Fits(l: string, measure: string -> real, threshold: real) {
    ' ' in l ==> measure(l) < threshold
  }

  lemma {:induction false} FillFits(words: seq<string>, measure: string -> real, threshold: real)
    requires forall k :: 0 <= k < |words| ==> ' ' !in words[k]
    ensures var st := Fill(words, measure, threshold);
      && Fits(st.accum, measure, threshold)
      && (forall k :: 0 <= k < |st.emitted| ==> Fits(st.emitted[k], measure, threshold))
      && (words != [] ==> st.separator == " ")
      && (words == [] ==> st.separator == "")
  {
    if words != [] {
      var ws := words[..|words| - 1];
      FillFits(ws, measure, threshold);
      var w := words[|words| - 1];
      var st := Fill(ws, measure, threshold);
      assert ' ' in st.accum + st.separator + w ==> ' ' in st.accum || ' ' in st.separator || ' ' in w;
    }
  }

  /** Every emitted line that has a joining space measured below the threshold. */
  lemma EmittedLinesFit(line: string, measure: string -> real, threshold: real, k: int)
    requires 0 <= k < |WrapLine(line, measure, threshold)|
    ensures Fits(WrapLine(line, measure, threshold)[k], measure, threshold)
  {
    var st := Fill(SplitOn(line, ' '), measure, threshold);
    FillFits(SplitOn(line, ' '), measure, threshold);
    if k < |st.emitted| {
      assert WrapLine(line, measure, threshold)[k] == st.emitted[k];
    } else {
      assert WrapLine(line, measure, threshold)[k] == st.accum;
    }
  }

  /** If the first word of a line does not fit, an empty line is emitted before it. */
  lemma {:induction false} FirstWordTooWide(line: string, measure: string -> real, threshold: real)
    requires !(measure(SplitOn(line, ' ')[0]) < threshold)
    ensures WrapLine(line, measure, threshold)[0] == ""
  {
    var ws := SplitOn(line, ' ');
    assert ws[..1][..0] == [];
    assert ws[..1][0] == ws[0];
    assert "" + "" + ws[0] == ws[0];
    assert Fill(ws[..1], measure, threshold).emitted == [""];
    FillPrefix(ws, 1, measure, threshold);
    assert Fill(ws, measure, threshold).emitted[0] == "";
  }

  /** Filling only ever adds to the emitted lines. */
  lemma {:induction false} FillPrefix(words: seq<string>, n: nat, measure: string -> real, threshold: real)
    requires n <= |words|
    ensures var e := Fill(words[..n], measure, threshold).emitted;
      var f := Fill(words, measure, threshold).emitted;
      |e| <= |f| && f[..|e|] == e
    decreases |words| - n
  {
    if n < |words| {
      FillPrefix(words, n + 1, measure, threshold);
      assert words[..n + 1][..n] == words[..n];
    } else {
      assert words[..n] == words;
    }
  }

  lemma {:induction false} JoinSnoc(xs: seq<string>, y: string, sep: string)
    requires |xs| >= 1
    ensures Join(xs + [y], sep) == Join(xs, sep) + sep + y
    decreases |xs|
  {
    if |xs| > 1 {
      assert (xs + [y])[1..] == xs[1..] + [y];
      JoinSnoc(xs[1..], y, sep);
    }
  }

  lemma {:induction false} JoinExtendLast(xs: seq<string>, a: string, sep: string, w: string)
    ensures Join(xs + [a + sep + w], sep) == Join(xs + [a], sep) + sep + w
    decreases |xs|
  {
    if |xs| >= 1 {
      assert (xs + [a + sep + w])[1..] == xs[1..] + [a + sep + w];
      assert (xs + [a])[1..] == xs[1..] + [a];
      JoinExtendLast(xs[1..], a, sep, w);
    }
  }

  /**
   * Joining the wrapped lines of some words with spaces gives the words back
   * joined with spaces, after one extra space when the first word did not fit.
   */
  lemma {:induction false} FillJoin(words: seq<string>, measure: string -> real, threshold: real)
    requires 1 <= |words|
    ensures var st := Fill(words, measure, threshold);
      && st.separator == " "
      && Join(st.emitted + [st.accum], " ") ==
         (if measure(words[0]) < threshold then "" else " ") + Join(words, " ")
  {
    var prefix := if measure(words[0]) < threshold then "" else " ";
    if |words| == 1 {
      assert words[..0] == [];
      assert "" + "" + words[0] == words[0];
    } else {
      var ws, w := words[..|words| - 1], words[|words| - 1];
      assert ws[0] == words[0];
      assert words == ws + [w];
      var st := Fill(ws, measure, threshold);
      FillJoin(ws, measure, threshold);
      JoinSnoc(ws, w, " ");
      StepJoin(st, w, measure, threshold);
      JoinSpace(prefix, Join(ws, " "), w);
    }
  }

  lemma JoinSpace(p: string, j: string, w: string)
    ensures p + j + " " + w == p + (j + " " + w)
  {
  }

  /** After a step with a space separator, the joined lines have gained a space and the word. */
  lemma StepJoin(st: LineState, w: string, measure: string -> real, threshold: real)
    requires st.separator == " "
    ensures var r := Step(st, w, measure, threshold);
      r.separator == " " && Join(r.emitted + [r.accum], " ") == Join(st.emitted + [st.accum], " ") + " " + w
  {
    if measure(st.accum + st.separator + w) < threshold {
      JoinExtendLast(st.emitted, st.accum, " ", w);
    } else {
      JoinSnoc(st.emitted + [st.accum], w, " ");
      assert st.emitted + [st.accum] + [w] == (st.emitted + [st.accum]) + [w];
    }
  }

  /** Wrapping drops no text: the wrapped lines joined by spaces are the line itself, after one space when its first word did not fit. */
  lemma WrapLineKeepsText(line: string, measure: string -> real, threshold: real)
    ensures Join(WrapLine(line, measure, threshold), " ") ==
      (if measure(SplitOn(line, ' ')[0]) < threshold then "" else " ") + line
  {
    var ws := SplitOn(line, ' ');
    FillJoin(ws, measure, threshold);
    SplitOnJoin(line, ' ');
  }

  class TextAreaBox {
    const leftStartPoint: int
    const width: int
    const height: int
    var displayText: string
    var textClrStr: string

    constructor(textClrStr: string, leftStartPoint: int, width: int, height: int)
      ensures this.leftStartPoint == leftStartPoint && this.width == width && this.height == height
      ensures this.textClrStr == textClrStr && displayText == ""
    {
      this.leftStartPoint := leftStartPoint;
      this.width := width;
      this.height := height;
      this.textClrStr := textClrStr;
      displayText := "";
    }

    /**
     * `wrapLines(displayStr, maxDisplayWidth)`: maxDisplayWidth is not used;
     * the threshold is the box width less both margins.
     */
    method WrapLines(displayStr: string, maxDisplayWidth: int, measure: string -> real) returns (out: string)
      ensures out == Flatten(WrapAll(SplitLines(displayStr), measure, (width - (Margin + Margin)) as real))
    {
      var threshold := (width - (Margin + Margin)) as real;
      out := "";
      var lines := SplitLines(displayStr);
      var i := 0;
      while i < |lines|
        invariant 0 <= i <= |lines|
        invariant out == Flatten(WrapAll(lines[..i], measure, threshold))
      {
        ghost var done, next := WrapAll(lines[..i], measure, threshold), WrapLine(lines[i], measure, threshold);
        assert lines[..i + 1][..i] == lines[..i];
        assert WrapAll(lines[..i + 1], measure, threshold) == done + next;
        FlattenAppend(done, next);
        out := WrapOneLine(out, lines[i], measure, threshold);
        i := i + 1;
      }
      assert lines[..i] == lines;
    }

    /** The callback the outer `forEach` of `wrapLines` runs on one input line: it appends that line's wrapped lines to out. */
    static method WrapOneLine(out: string, line: string, measure: string -> real, threshold: real) returns (out': string)
      ensures out' == out + Flatten(WrapLine(line, measure, threshold))
    {
      out' := out;
      var words := SplitOn(line, ' ');
      var accumWords := "";
      var separator := "";
      ghost var st := LineState([], "", "");
      var j := 0;
      assert words[..0] == [];
      while j < |words|
        invariant 0 <= j <= |words|
        invariant st == Fill(words[..j], measure, threshold)
        invariant out' == out + Flatten(st.emitted)
        invariant accumWords == st.accum && separator == st.separator
      {
        var word := words[j];
        assert words[..j + 1][..j] == words[..j];
        assert Fill(words[..j + 1], measure, threshold) == Step(st, word, measure, threshold);
        var tempAccumWords := accumWords + separator + word;
        if measure(tempAccumWords) < threshold {
          accumWords := accumWords + separator + word;
          separator := " ";
        } else {
          FlattenSnoc(st.emitted, st.accum);
          AppendLine(out, Flatten(st.emitted), accumWords);
          out' := out' + accumWords + "\n";
          accumWords := word;
          separator := " ";
        }
        st := Step(st, word, measure, threshold);
        j := j + 1;
      }
      assert words[..j] == words;
      FlattenSnoc(st.emitted, st.accum);
      AppendLine(out, Flatten(st.emitted), accumWords);
      out' := out' + accumWords + "\n";
    }

    /** `setDisplayText(str)`: carriage returns are removed, then the text is wrapped. */
    method SetDisplayText(str: string, measure: string -> real)
      modifies this
      ensures displayText == Flatten(WrapAll(SplitLines(RemoveReturns(str)), measure, (width - (Margin + Margin)) as real))
      ensures textClrStr == old(textClrStr)
    {
      displayText := RemoveReturns(str);
      displayText := WrapLines(displayText, width - leftStartPoint, measure);
    }
  }
}

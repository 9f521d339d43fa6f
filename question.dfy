// One quiz question as read from the questions file, and the text the
// text area shows for it.
module Question {
  import opened Js
  import opened JsText

  /**
   * A question record. The texts are the file's properties, undefined (None)
   * when the file lacks them; the offsets are `parseInt` results, NaN (None)
   * when they do not parse.
   */
  datatype Question = Question(
    questionNum: int, totalQuestions: int,
    id: Option<string>, question: Option<string>,
    answerA: Option<string>, answerB: Option<string>, answerC: Option<string>, answerD: Option<string>,
    xRelAnswerA: Option<int>, yRelAnswerA: Option<int>, xRelAnswerB: Option<int>, yRelAnswerB: Option<int>,
    xRelAnswerC: Option<int>, yRelAnswerC: Option<int>, xRelAnswerD: Option<int>, yRelAnswerD: Option<int>)

  /** The constructor's record: number 0, every text empty. */
  function Fresh(): Question {
    Question(0, 0, Some(""), Some(""), Some(""), Some(""), Some(""), Some(""),
             None, None, None, None, None, None, None, None)
  }

  /** A property in string concatenation: undefined prints as "undefined". */
  function Text(v: Option<string>): string {
    if v.None? then "undefined" else v.value
  }

  /** The text's closing hint line, built from four short literals. */
  const Hint: string := "(Follow the path " + "in the maze " + "associated with " + "the correct answer.)"

  lemma HintSingleLine()
    ensures NoBreak(Hint)
  {
    NoBreakAppend("(Follow the path ", "in the maze ");
    NoBreakAppend("(Follow the path " + "in the maze ", "associated with ");
    NoBreakAppend("(Follow the path " + "in the maze " + "associated with ", "the correct answer.)");
  }

  /**
   * `getQuestionAnswerText()`: the question, a blank line, the four answers
   * labelled "A. " to "D. " on lines of their own, a blank line, and the hint.
   */
  function GetQuestionAnswerText(q: Question): (r: string)
    ensures |r| >= |Text(q.question)| + |Hint|
    ensures r[..|Text(q.question)|] == Text(q.question) && r[|r| - |Hint|..] == Hint
  {
    Text(q.question) + "\n\n" +
    "A. " + Text(q.answerA) + "\n" +
    "B. " + Text(q.answerB) + "\n" +
    "C. " + Text(q.answerC) + "\n" +
    "D. " + Text(q.answerD) + "\n\n" +
    Hint
  }

  predicate SingleLine(v: Option<string>) {
    NoBreak(Text(v))
  }

  /** The lines of the text, in order. */
  function AnswerLines(q: Question): seq<string> {
    [Text(q.question), "", "A. " + Text(q.answerA), "B. " + Text(q.answerB),
     "C. " + Text(q.answerC), "D. " + Text(q.answerD), "", Hint]
  }

  /** The text is its lines joined by "\n". */
  lemma AnswerTextIsJoin(q: Question)
    ensures GetQuestionAnswerText(q) == Join(AnswerLines(q), "\n")
  {
    JoinEight(Text(q.question), Text(q.answerA), Text(q.answerB), Text(q.answerC), Text(q.answerD), Hint);
  }

  lemma JoinEight(x: string, a: string, b: string, c: string, d: string, h: string)
    ensures x + "\n\n" + "A. " + a + "\n" + "B. " + b + "\n" + "C. " + c + "\n" + "D. " + d + "\n\n" + h
         == Join([x, "", "A. " + a, "B. " + b, "C. " + c, "D. " + d, "", h], "\n")
  {
    var nl := "\n";
    JoinEightBy(x, "A. " + a, "B. " + b, "C. " + c, "D. " + d, h, nl);
    assert x + "\n\n" == x + nl + nl;
    var l2 := x + nl + nl + ("A. " + a) + nl;
    assert x + "\n\n" + "A. " + a + "\n" == l2;
    var l3 := l2 + ("B. " + b) + nl;
    assert x + "\n\n" + "A. " + a + "\n" + "B. " + b + "\n" == l3;
    var l4 := l3 + ("C. " + c) + nl;
    assert x + "\n\n" + "A. " + a + "\n" + "B. " + b + "\n" + "C. " + c + "\n" == l4;
    assert x + "\n\n" + "A. " + a + "\n" + "B. " + b + "\n" + "C. " + c + "\n" + "D. " + d + "\n\n" == l4 + ("D. " + d) + nl + nl;
  }

  /** Eight lines joined by a separator, written out. */
  lemma JoinEightBy(x: string, a: string, b: string, c: string, d: string, h: string, nl: string)
    ensures x + nl + nl + a + nl + b + nl + c + nl + d + nl + nl + h == Join([x, "", a, b, c, d, "", h], nl)
  {
    var p := [x, "", a, b, c, d, "", h];
    assert p[7..] == [h];
    assert Join(p[7..], nl) == h;
    var r6 := Join(p[6..], nl);
    assert r6 == "" + nl + h == nl + h;
    var r5 := Join(p[5..], nl);
    assert r5 == d + nl + r6;
    var r4 := Join(p[4..], nl);
    assert r4 == c + nl + r5;
    var r3 := Join(p[3..], nl);
    assert r3 == b + nl + r4;
    var r2 := Join(p[2..], nl);
    assert r2 == a + nl + r3;
    var r1 := Join(p[1..], nl);
    assert r1 == "" + nl + r2 == nl + r2;
    assert Join(p, nl) == x + nl + r1;
    var l1 := x + nl + nl;
    ShiftOne(x + nl, nl, r2);
    var l2 := l1 + a + nl;
    ShiftTwo(l1, a, nl, r3);
    var l3 := l2 + b + nl;
    ShiftTwo(l2, b, nl, r4);
    var l4 := l3 + c + nl;
    ShiftTwo(l3, c, nl, r5);
    var l5 := l4 + d + nl;
    ShiftTwo(l4, d, nl, r6);
    ShiftOne(l5, nl, h);
  }

  lemma ShiftOne(l: string, u: string, r: string)
    ensures l + (u + r) == l + u + r
  {
  }

  lemma ShiftTwo(l: string, u: string, v: string, r: string)
    ensures l + (u + v + r) == l + u + v + r
  {
  }

  lemma NoBreakAppend(a: string, b: string)
    requires NoBreak(a) && NoBreak(b)
    ensures NoBreak(a + b)
  {
    forall j | 0 <= j < |a + b| ensures (a + b)[j] != '\r' && (a + b)[j] != '\n' {
      if j < |a| { assert (a + b)[j] == a[j]; } else { assert (a + b)[j] == b[j - |a|]; }
    }
  }

  /**
   * When the question and its answers are single lines, the text's lines are
   * exactly the question, a blank, the answers in order A to D, a blank and
   * the hint, so each answer can be read back from its line.
   */
  lemma AnswerTextLines(q: Question)
    requires SingleLine(q.question) && SingleLine(q.answerA) && SingleLine(q.answerB)
    requires SingleLine(q.answerC) && SingleLine(q.answerD)
    ensures SplitLines(GetQuestionAnswerText(q)) == AnswerLines(q)
  {
    NoBreakAppend("A. ", Text(q.answerA));
    NoBreakAppend("B. ", Text(q.answerB));
    NoBreakAppend("C. ", Text(q.answerC));
    NoBreakAppend("D. ", Text(q.answerD));
    HintSingleLine();
    var parts := AnswerLines(q);
    assert forall i :: 0 <= i < |parts| ==> NoBreak(parts[i]);
    AnswerTextIsJoin(q);
    SplitLinesOfJoin(parts);
  }

  /** A fresh record yields the bare skeleton. */
  lemma FreshAnswerText()
    ensures GetQuestionAnswerText(Fresh()) == "\n\nA. \nB. \nC. \nD. \n\n" + Hint
  {
    var q := Fresh();
    assert Text(q.question) == "" && Text(q.answerA) == "" && Text(q.answerB) == "";
    assert Text(q.answerC) == "" && Text(q.answerD) == "";
    assert "" + "\n\n" + "A. " + "" + "\n" + "B. " + "" + "\n" + "C. " + "" + "\n" + "D. " + "" + "\n\n"
        == "\n\nA. \nB. \nC. \nD. \n\n";
  }
}

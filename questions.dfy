// The question list read from the questions INI file: one section
// "Question<n>" per question, looked up by the question's id.
module Questions {
  import opened Js
  import opened JsText
  import opened IniFile
  import opened Question

  /** The section that holds question num. */
  function SectionName(num: int): string {
    "Question" + IntToString(num)
  }

  /** `iniObj[section][key]` on a property known to exist: a string value has no such property. */
  function Property(v: IniValue, key: string): (r: Option<string>)
    ensures v.Section? && key in v.entries ==> r == Some(v.entries[key])
    ensures !(v.Section? && key in v.entries) ==> r.None?
  {
    if v.Section? && key in v.entries then Some(v.entries[key]) else None
  }

  /**
   * `readQuestion(num)`: a TypeError when the section is missing; otherwise
   * the record with the id, text and answers copied and the eight offsets
   * read by `parseInt(…, 10)`.
   */
  function ReadFrom(ini: IniObj, total: int, num: int): (r: Outcome<Question>)
    ensures r.Throws? <==> SectionName(num) !in ini
    ensures r.Throws? ==> r.error == TypeError
    ensures r.Returns? ==> r.value.questionNum == num && r.value.totalQuestions == total
  {
    var name := SectionName(num);
    if name !in ini then Throws(TypeError)
    else
      var sec := ini[name];
      Returns(Question(num, total,
        Property(sec, "ID"), Property(sec, "Question"),
        Property(sec, "AnswerA"), Property(sec, "AnswerB"), Property(sec, "AnswerC"), Property(sec, "AnswerD"),
        ParseIntValue(Property(sec, "XRelAnswerA")), ParseIntValue(Property(sec, "YRelAnswerA")),
        ParseIntValue(Property(sec, "XRelAnswerB")), ParseIntValue(Property(sec, "YRelAnswerB")),
        ParseIntValue(Property(sec, "XRelAnswerC")), ParseIntValue(Property(sec, "YRelAnswerC")),
        ParseIntValue(Property(sec, "XRelAnswerD")), ParseIntValue(Property(sec, "YRelAnswerD"))))
  }

  /** A question with every text present and every offset a number. */
  predicate Complete(q: Question) {
    q.id.Some? && q.question.Some? && q.answerA.Some? && q.answerB.Some? && q.answerC.Some? && q.answerD.Some? &&
    q.xRelAnswerA.Some? && q.yRelAnswerA.Some? && q.xRelAnswerB.Some? && q.yRelAnswerB.Some? &&
    q.xRelAnswerC.Some? && q.yRelAnswerC.Some? && q.xRelAnswerD.Some? && q.yRelAnswerD.Some?
  }

  /** The section a question file holds for q. */
  function Entries(q: Question): map<string, string>
    requires Complete(q)
  {
    map["ID" := q.id.value, "Question" := q.question.value,
        "AnswerA" := q.answerA.value, "AnswerB" := q.answerB.value,
        "AnswerC" := q.answerC.value, "AnswerD" := q.answerD.value,
        "XRelAnswerA" := IntToString(q.xRelAnswerA.value), "YRelAnswerA" := IntToString(q.yRelAnswerA.value),
        "XRelAnswerB" := IntToString(q.xRelAnswerB.value), "YRelAnswerB" := IntToString(q.yRelAnswerB.value),
        "XRelAnswerC" := IntToString(q.xRelAnswerC.value), "YRelAnswerC" := IntToString(q.yRelAnswerC.value),
        "XRelAnswerD" := IntToString(q.xRelAnswerD.value), "YRelAnswerD" := IntToString(q.yRelAnswerD.value)]
  }

  lemma EntriesText(q: Question)
    requires Complete(q)
    ensures var e := Entries(q);
      && "ID" in e && e["ID"] == q.id.value && "Question" in e && e["Question"] == q.question.value
  {
  }

  lemma EntriesAnswers(q: Question)
    requires Complete(q)
    ensures var e := Entries(q);
      && "AnswerA" in e && e["AnswerA"] == q.answerA.value && "AnswerB" in e && e["AnswerB"] == q.answerB.value
      && "AnswerC" in e && e["AnswerC"] == q.answerC.value && "AnswerD" in e && e["AnswerD"] == q.answerD.value
  {
  }

  lemma EntriesOffsets(q: Question)
    requires Complete(q)
    ensures var e := Entries(q);
      && "XRelAnswerA" in e && e["XRelAnswerA"] == IntToString(q.xRelAnswerA.value)
      && "YRelAnswerA" in e && e["YRelAnswerA"] == IntToString(q.yRelAnswerA.value)
      && "XRelAnswerB" in e && e["XRelAnswerB"] == IntToString(q.xRelAnswerB.value)
      && "YRelAnswerB" in e && e["YRelAnswerB"] == IntToString(q.yRelAnswerB.value)
      && "XRelAnswerC" in e && e["XRelAnswerC"] == IntToString(q.xRelAnswerC.value)
      && "YRelAnswerC" in e && e["YRelAnswerC"] == IntToString(q.yRelAnswerC.value)
      && "XRelAnswerD" in e && e["XRelAnswerD"] == IntToString(q.xRelAnswerD.value)
      && "YRelAnswerD" in e && e["YRelAnswerD"] == IntToString(q.yRelAnswerD.value)
  {
  }

  /** Writing a question's section and reading it back gives the question. */
  lemma ReadBack(ini: IniObj, q: Question)
    requires Complete(q)
    requires SectionName(q.questionNum) in ini && ini[SectionName(q.questionNum)] == Section(Entries(q))
    ensures ReadFrom(ini, q.totalQuestions, q.questionNum) == Returns(q)
  {
    EntriesText(q);
    EntriesAnswers(q);
    EntriesOffsets(q);
    ParseIntOfInt(q.xRelAnswerA.value); ParseIntOfInt(q.yRelAnswerA.value);
    ParseIntOfInt(q.xRelAnswerB.value); ParseIntOfInt(q.yRelAnswerB.value);
    ParseIntOfInt(q.xRelAnswerC.value); ParseIntOfInt(q.yRelAnswerC.value);
    ParseIntOfInt(q.xRelAnswerD.value); ParseIntOfInt(q.yRelAnswerD.value);
  }

  /** The index of the first question among 0..count-1 whose section is missing, or count. */
  function FirstMissing(ini: IniObj, count: int, i: nat): (m: nat)
    ensures i <= m && (i <= count ==> m <= count)
    ensures forall j :: i <= j < m ==> SectionName(j) in ini
    ensures m < count ==> SectionName(m) !in ini
    decreases count - i
  {
    if i >= count || SectionName(i) !in ini then i else FirstMissing(ini, count, i + 1)
  }

  /**
   * `returnQuestion(id)` as a function: the first question in list order,
   * among the first count, whose id is id; reading past the end of the list
   * is a TypeError, and no match reaches the undeclared `num` (a
   * ReferenceError).
   */
  function FindQuestion(qs: seq<Question>, count: int, id: string, i: nat): (r: Outcome<Question>)
    ensures r.Returns? ==> exists k :: i <= k < count && k < |qs| && qs[k] == r.value && qs[k].id == Some(id) &&
                                       forall j :: i <= j < k ==> qs[j].id != Some(id)
    ensures (forall k :: i <= k < count && k < |qs| ==> qs[k].id != Some(id)) ==> r.Throws?
    ensures r == Throws(ReferenceError) ==> (i < count ==> count <= |qs|) && forall k :: i <= k < count ==> qs[k].id != Some(id)
    ensures r == Throws(TypeError) ==> |qs| < count && forall k :: i <= k < |qs| ==> qs[k].id != Some(id)
    decreases count - i
  {
    if i >= count then Throws(ReferenceError)
    else if i >= |qs| then Throws(TypeError)
    else if qs[i].id == Some(id) then Returns(qs[i])
    else
      var r := FindQuestion(qs, count, id, i + 1);
      r
  }

  /** Questions 0..n-1 as `readQuestion` reads them, when none of their sections is missing. */
  function Loaded(ini: IniObj, total: int, n: nat): (r: seq<Question>)
    requires n <= FirstMissing(ini, total, 0)
    ensures |r| == n
  {
    if n == 0 then [] else Loaded(ini, total, n - 1) + [ReadFrom(ini, total, n - 1).value]
  }

  /** Entry j of the loaded questions is what `readQuestion(j)` returns. */
  lemma {:induction false} LoadedAt(ini: IniObj, total: int, n: nat, j: int)
    requires n <= FirstMissing(ini, total, 0) && 0 <= j < n
    ensures ReadFrom(ini, total, j) == Returns(Loaded(ini, total, n)[j])
  {
    if j < n - 1 {
      LoadedAt(ini, total, n - 1, j);
    }
  }

  /** A question up to the first missing one whose section is present lies before the first missing one. */
  lemma FirstMissingBeyond(ini: IniObj, count: int, i: nat)
    requires i <= FirstMissing(ini, count, 0) && i < count && SectionName(i) in ini
    ensures i + 1 <= FirstMissing(ini, count, 0)
  {
  }

  /** A question up to the first missing one that is missing, or the count, is the first missing one. */
  lemma FirstMissingIs(ini: IniObj, count: int, i: nat)
    requires i <= FirstMissing(ini, count, 0) && (i >= count || SectionName(i) !in ini)
    ensures FirstMissing(ini, count, 0) == i
  {
  }

  lemma AppendOne<T>(a: seq<T>, b: seq<T>, x: T)
    ensures (a + b) + [x] == a + (b + [x])
  {
  }

  class Questions {
    var numQuestions: int
    var questions: seq<Question>
    var iniObj: IniObj

    constructor()
      ensures numQuestions == 0 && questions == [] && iniObj == map[]
    {
      numQuestions := 0;
      questions := [];
      iniObj := map[];
    }

    /**
     * `readQuestion(num)` on the list's own ini object: it throws exactly when
     * section "Question<num>" is missing; otherwise the question is number num
     * of numQuestions, its texts are that section's properties and its offsets
     * are those properties as `parseInt` reads them.
     */
    function ReadQuestion(num: int): (r: Outcome<Question>)
      reads this
      ensures r.Throws? <==> SectionName(num) !in iniObj
      ensures r.Throws? ==> r.error == TypeError
      ensures r.Returns? ==>
        var sec, q := iniObj[SectionName(num)], r.value;
        q.questionNum == num && q.totalQuestions == numQuestions
        && q.id == Property(sec, "ID") && q.question == Property(sec, "Question")
        && q.answerA == Property(sec, "AnswerA") && q.answerB == Property(sec, "AnswerB")
        && q.answerC == Property(sec, "AnswerC") && q.answerD == Property(sec, "AnswerD")
        && q.xRelAnswerA == ParseIntValue(Property(sec, "XRelAnswerA"))
        && q.yRelAnswerA == ParseIntValue(Property(sec, "YRelAnswerA"))
        && q.xRelAnswerB == ParseIntValue(Property(sec, "XRelAnswerB"))
        && q.yRelAnswerB == ParseIntValue(Property(sec, "YRelAnswerB"))
        && q.xRelAnswerC == ParseIntValue(Property(sec, "XRelAnswerC"))
        && q.yRelAnswerC == ParseIntValue(Property(sec, "YRelAnswerC"))
        && q.xRelAnswerD == ParseIntValue(Property(sec, "XRelAnswerD"))
        && q.yRelAnswerD == ParseIntValue(Property(sec, "YRelAnswerD"))
    {
      ReadFrom(iniObj, numQuestions, num)
    }

    /**
     * The loop of `loadQuestionsFile` once the file is parsed: questions 0 to
     * count-1 are read in order and pushed; a missing section throws and
     * stops the loop with the earlier questions kept.
     */
    method LoadQuestions(ini: IniObj, count: int) returns (thrown: Option<JsError>)
      modifies this
      ensures iniObj == ini && numQuestions == count
      ensures var m := FirstMissing(ini, count, 0);
        && questions == old(questions) + Loaded(ini, count, m)
        && thrown == (if m < count then Some(TypeError) else None)
    {
      iniObj := ini;
      numQuestions := count;
      ghost var before := questions;
      var i := 0;
      while i < numQuestions
        invariant iniObj == ini && numQuestions == count
        invariant 0 <= i <= FirstMissing(ini, count, 0)
        invariant questions == before + Loaded(ini, count, i)
        decreases numQuestions - i
      {
        var question := ReadQuestion(i);
        if question.Throws? {
          FirstMissingIs(ini, count, i);
          thrown := Some(question.error);
          return;
        }
        FirstMissingBeyond(ini, count, i);
        AppendOne(before, Loaded(ini, count, i), question.value);
        questions := questions + [question.value];
        i := i + 1;
      }
      FirstMissingIs(ini, count, i);
      thrown := None;
    }

    /** `returnQuestion(id)`: the search loop, which only reads. */
    method ReturnQuestion(questionId: string) returns (r: Outcome<Question>)
      ensures r == FindQuestion(questions, numQuestions, questionId, 0)
    {
      var i := 0;
      while i < numQuestions
        invariant 0 <= i && (i <= numQuestions || i == 0)
        invariant i <= |questions|
        invariant FindQuestion(questions, numQuestions, questionId, 0) == FindQuestion(questions, numQuestions, questionId, i)
        decreases numQuestions - i
      {
        if i >= |questions| {
          return Throws(TypeError);
        }
        var curQuestion := questions[i];
        if curQuestion.id == Some(questionId) {
          return Returns(curQuestion);
        }
        i := i + 1;
      }
      r := Throws(ReferenceError);
    }
  }
}

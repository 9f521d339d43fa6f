// The question-position map: an aerial view of where the question marks
// stand ('0' for none, otherwise the question's id character), read from a
// map file like the prop map, plus the lookup that tells whether a tile
// shows a question mark or one of the answers A-D of the active question.
module QuestionPosData {
  import opened Js
  import opened JsText
  import opened TileGrid
  import opened Question
  import Questions
  import MathUtils

  /** The built-in 8x8 question map, top to bottom: questions 1, 2 and 3. */
  function DefaultRows(): seq<string> {
    ["00000000",
     "00000000",
     "00100000",
     "00000000",
     "00000000",
     "00020000",
     "00000030",
     "00000000"]
  }

  /**
   * `setupPositionList()` as a function: the map after recording, in array
   * order, the index of every tile other than '0' under its character.
   */
  function PositionList(start: map<char, int>, data: seq<char>): map<char, int> {
    if data == [] then start
    else
      var m := PositionList(start, data[..|data| - 1]);
      if data[|data| - 1] != '0' then m[data[|data| - 1] := |data| - 1] else m
  }

  /**
   * Each question character ends up mapped to its LAST position in the
   * array; '0' and characters that do not occur keep what the map held
   * before (the map is never cleared).
   */
  lemma {:induction false} PositionListSpec(start: map<char, int>, data: seq<char>, c: char)
    ensures var r := PositionList(start, data);
      && (c == '0' || c !in data ==> (c in r <==> c in start) && (c in start ==> r[c] == start[c]))
      && (c != '0' && c in data ==>
            c in r && 0 <= r[c] < |data| && data[r[c]] == c &&
            forall j :: r[c] < j < |data| ==> data[j] != c)
  {
    if data != [] {
      var front := data[..|data| - 1];
      PositionListSpec(start, front, c);
      assert data == front + [data[|data| - 1]];
      if c in data && c != data[|data| - 1] {
        var k :| 0 <= k < |data| && data[k] == c;
        assert front[k] == c;
      }
      var r := PositionList(start, data);
      if c != '0' && c in data && c != data[|data| - 1] {
        assert c in front;
        forall j | r[c] < j < |data| ensures data[j] != c {
          if j < |front| { assert front[j] == data[j]; }
        }
        assert data[r[c]] == front[r[c]];
      }
    }
  }

  /** `(row << shift) + col`: a NaN row shifts as 0, a NaN column makes the sum NaN. */
  function MapPosOf(row: Option<int>, col: Option<int>, shift: int): (r: Option<int>)
    ensures r.Some? <==> col.Some?
    ensures row.Some? && col.Some? ==> r == Some(Shl(row.value, shift) + col.value)
  {
    NumAdd(Some(Shl(if row.Some? then row.value else 0, shift)), col)
  }

  class QuestionPosData {
    var mapWidth: int
    var mapWidthShift: int
    var mapHeight: int
    var questionToPosMap: map<char, int>
    var questionCanvasImgs: map<string, ImageCanvas>
    var questionPosData: seq<char>

    /** Width, height and shift come from the wall map; the tiles start as the built-in map. */
    constructor(mapHeight: int, mapWidth: int, mapWidthShift: int)
      ensures this.mapWidth == mapWidth && this.mapWidthShift == mapWidthShift && this.mapHeight == mapHeight
      ensures questionToPosMap == map[] && questionCanvasImgs == map[]
      ensures questionPosData == Concat(DefaultRows())
    {
      this.mapWidth := mapWidth;
      this.mapWidthShift := mapWidthShift;
      this.mapHeight := mapHeight;
      questionToPosMap := map[];
      questionCanvasImgs := map[];
      questionPosData := Concat(DefaultRows());
    }

    /** `isQuestionPosItem(p)`: every position except one holding '0', including those outside the array. */
    function IsQuestionPosItem(mapPos: int): (r: bool)
      reads this
      ensures r <==> !(0 <= mapPos < |questionPosData| && questionPosData[mapPos] == '0')
    {
      IsOccupied(questionPosData, mapPos)
    }

    /** `getValue(p)`: '0' outside [0, mapHeight << mapWidthShift), the stored tile (or undefined) inside. */
    function GetValue(mapPos: int): (r: Option<char>)
      reads this
      ensures mapPos < 0 || mapPos >= Shl(mapHeight, mapWidthShift) ==> r == Some('0')
      ensures 0 <= mapPos < Shl(mapHeight, mapWidthShift) ==> r == At(questionPosData, mapPos)
    {
      TileGrid.GetValue(questionPosData, mapHeight, mapWidthShift, mapPos)
    }

    /** `convertPointToMapPos(x, y)`: y * 2^mapWidthShift + x in the usual range. */
    function ConvertPointToMapPos(x: int, y: int): (p: int)
      reads this
      ensures 0 <= mapWidthShift <= 20 && 0 <= y && y * Pow2(mapWidthShift) < 0x4000_0000 ==>
                p == y * Pow2(mapWidthShift) + x
    {
      TileGrid.ConvertPointToMapPos(mapWidthShift, x, y)
    }

    /** `getCanvasImage(ch)`: the image loaded for '?', 'A', 'B', 'C' or 'D', or null. */
    function GetCanvasImage(ch: string): (r: Option<ImageCanvas>)
      reads this
      ensures r.Some? <==> ch in questionCanvasImgs
      ensures r.Some? ==> r.value == questionCanvasImgs[ch]
    {
      LookupImage(questionCanvasImgs, ch)
    }

    /** `setupPositionList()`: records every question's position; nothing else changes. */
    method SetupPositionList()
      modifies this
      ensures questionToPosMap == PositionList(old(questionToPosMap), questionPosData)
      ensures questionPosData == old(questionPosData) && mapWidth == old(mapWidth)
      ensures mapWidthShift == old(mapWidthShift) && mapHeight == old(mapHeight)
      ensures questionCanvasImgs == old(questionCanvasImgs)
    {
      var i := 0;
      while i < |questionPosData|
        invariant 0 <= i <= |questionPosData|
        invariant questionToPosMap == PositionList(old(questionToPosMap), questionPosData[..i])
        invariant questionPosData == old(questionPosData) && mapWidth == old(mapWidth)
        invariant mapWidthShift == old(mapWidthShift) && mapHeight == old(mapHeight)
        invariant questionCanvasImgs == old(questionCanvasImgs)
      {
        assert questionPosData[..i + 1][..i] == questionPosData[..i];
        if questionPosData[i] != '0' {
          var indexStr := questionPosData[i];
          questionToPosMap := questionToPosMap[indexStr := i];
        }
        i := i + 1;
      }
      assert questionPosData[..i] == questionPosData;
    }

    /**
     * `getQuestionItemTypeAt(mapIndex, questions, cur)`: '?' on a tile that
     * is not '0' (an undefined tile included); '0' when no question is
     * active; otherwise the first of the active question's answers A-D whose
     * tile, placed relative to the question mark, is mapIndex, or '0' when
     * none is or when any answer's column exceeds mapWidth or its row
     * mapHeight. Looking the active question up may throw.
     */
    function GetQuestionItemTypeAt(mapIndex: int, questions: Questions.Questions, cur: char): (r: Outcome<char>)
      reads this, questions
      ensures r.Throws? <==>
        GetValue(mapIndex) == Some('0') && cur != '0' &&
        Questions.FindQuestion(questions.questions, questions.numQuestions, [cur], 0).Throws?
      ensures r.Throws? ==> r.error == Questions.FindQuestion(questions.questions, questions.numQuestions, [cur], 0).error
      ensures r.Returns? ==> r.value in "?ABCD0"
      ensures GetValue(mapIndex) != Some('0') ==> r == Returns('?')
      ensures GetValue(mapIndex) == Some('0') && cur == '0' ==> r == Returns('0')
    {
      if GetValue(mapIndex) != Some('0') then Returns('?')
      else if cur == '0' then Returns('0')
      else
        var found := Questions.FindQuestion(questions.questions, questions.numQuestions, [cur], 0);
        if found.Throws? then Throws(found.error)
        else Returns(AnswerAt(mapIndex, RowOf(cur), ColOf(cur), found.value))
    }

    /** `questionToPosMap[cur] >> mapWidthShift`: an unknown question (undefined) gives row 0. */
    function RowOf(cur: char): int
      reads this
    {
      if cur in questionToPosMap then Sar(questionToPosMap[cur], mapWidthShift) else 0
    }

    /** `questionToPosMap[cur] % mapWidth`: NaN for an unknown question or a zero width. */
    function ColOf(cur: char): Option<int>
      reads this
    {
      if cur in questionToPosMap && mapWidth != 0 then Some(Rem(questionToPosMap[cur], mapWidth)) else None
    }

    /** The range checks and the A-D comparisons of `getQuestionItemTypeAt`. */
    function AnswerAt(mapIndex: int, row: int, col: Option<int>, q: Question): char
      reads this
    {
      var rowA := NumAdd(Some(row), q.yRelAnswerA);
      var rowB := NumAdd(Some(row), q.yRelAnswerB);
      var rowC := NumAdd(Some(row), q.yRelAnswerC);
      var rowD := NumAdd(Some(row), q.yRelAnswerD);
      var colA := NumAdd(col, q.xRelAnswerA);
      var colB := NumAdd(col, q.xRelAnswerB);
      var colC := NumAdd(col, q.xRelAnswerC);
      var colD := NumAdd(col, q.xRelAnswerD);
      if NumGreater(colA, mapWidth) || NumGreater(colB, mapWidth) ||
         NumGreater(colC, mapWidth) || NumGreater(colD, mapWidth) then '0'
      else if NumGreater(rowA, mapHeight) || NumGreater(rowB, mapHeight) ||
              NumGreater(rowC, mapHeight) || NumGreater(rowD, mapHeight) then '0'
      else if MapPosOf(rowA, colA, mapWidthShift) == Some(mapIndex) then 'A'
      else if MapPosOf(rowB, colB, mapWidthShift) == Some(mapIndex) then 'B'
      else if MapPosOf(rowC, colC, mapWidthShift) == Some(mapIndex) then 'C'
      else if MapPosOf(rowD, colD, mapWidthShift) == Some(mapIndex) then 'D'
      else '0'
    }

    /**
     * `getQuestionItemTypeAtSpecial(mapIndex, questions, cur)`: as
     * `getQuestionItemTypeAt`, except that a question mark is dropped ('0')
     * when its tile holds the active question itself.
     */
    function GetQuestionItemTypeAtSpecial(mapIndex: int, questions: Questions.Questions, cur: char): (r: Outcome<char>)
      reads this, questions
      ensures GetValue(mapIndex) == Some(cur) && cur != '0' ==> r == Returns('0')
      ensures GetValue(mapIndex) != Some('0') && GetValue(mapIndex) != Some(cur) ==> r == Returns('?')
      ensures GetValue(mapIndex) == Some('0') ==> r == GetQuestionItemTypeAt(mapIndex, questions, cur)
    {
      var questItemTypeHit := GetQuestionItemTypeAt(mapIndex, questions, cur);
      if questItemTypeHit != Returns('?') then questItemTypeHit
      else if GetValue(mapIndex) == Some(cur) then Returns('0')
      else Returns('?')
    }

    /**
     * `parseQuestionPosData(data)`: scans the file as the prop map is
     * scanned; a bad first width throws after setting mapWidth; otherwise a
     * mismatching line and a line count that differs from the wall map's
     * are reported, and unless the file had no lines the scanned tiles, the
     * line count and the width's shift are committed and the positions of
     * the questions recorded.
     */
    method ParseQuestionPosData(data: string) returns (reports: seq<Report>, thrown: Option<JsError>)
      modifies this
      ensures var s := ParseScan(data);
        && mapWidth == s.width
        && questionCanvasImgs == old(questionCanvasImgs)
        && (s.end == BadFirstWidth ==>
              && thrown == Some(ReferenceError) && reports == []
              && mapWidthShift == old(mapWidthShift) && mapHeight == old(mapHeight)
              && questionPosData == old(questionPosData) && questionToPosMap == old(questionToPosMap))
        && (s.end != BadFirstWidth ==>
              && thrown == None
              && reports == (if s.end == Mismatch then [InconsistentLine(s.lineNum)] else []) +
                            (if s.lineNum != old(mapHeight) then [LineCountMismatch] else []))
        && (s.end != BadFirstWidth && s.width == -1 ==>
              && mapWidthShift == old(mapWidthShift) && mapHeight == old(mapHeight)
              && questionPosData == old(questionPosData) && questionToPosMap == old(questionToPosMap))
        && (s.end != BadFirstWidth && s.width != -1 ==>
              && mapWidthShift == MathUtils.LogarithmBaseTwo(s.width)
              && mapHeight == s.lineNum && questionPosData == s.file
              && questionToPosMap == PositionList(old(questionToPosMap), s.file))
    {
      var s := ScanLines(data);
      mapWidth := s.width;
      if s.end == BadFirstWidth {
        reports := [];
        thrown := Some(ReferenceError);
        return;
      }
      if s.width != -1 {
        mapWidthShift := MathUtils.LogarithmBaseTwo(s.width);
      }
      reports := if s.end == Mismatch then [InconsistentLine(s.lineNum)] else [];
      if s.lineNum != mapHeight {
        reports := reports + [LineCountMismatch];
      }
      thrown := None;
      if mapWidth != -1 {
        mapHeight := s.lineNum;
        questionPosData := s.file;
        SetupPositionList();
      }
    }
  }

  /**
   * Where every number is in range, an answer's tile lies at its (x, y)
   * offset from the question mark's tile: `(pos / w + y) << shift` plus
   * `pos % w + x` is pos + y*w + x.
   */
  lemma {:induction false} AnswerTile(shift: int, height: int, pos: int, x: int, y: int)
    requires 0 <= shift <= 8 && 0 <= height && height * Pow2(shift) < 0x4000_0000
    requires 0 <= pos < 0x4000_0000
    requires -height <= pos / Pow2(shift) + y <= height
    ensures Shl(pos / Pow2(shift) + y, shift) + (pos % Pow2(shift) + x) == pos + y * Pow2(shift) + x
  {
    var w := Pow2(shift);
    var row := pos / w + y;
    ShiftedRow(row, height, shift);
    RowThenColumn(pos, w, x, y);
  }

  /** A row within mapHeight of row 0, either way, shifts without wrapping. */
  lemma ShiftedRow(row: int, height: int, shift: int)
    requires 0 <= shift <= 8 && 0 <= height && height * Pow2(shift) < 0x4000_0000
    requires -height <= row <= height
    ensures Shl(row, shift) == row * Pow2(shift)
  {
    RowFitsInt32(row, height, Pow2(shift));
    ShlMultiplies(row, shift);
  }

  /** A row and its product with w both fit in 32 bits when |row| <= height and height * w < 2^30. */
  lemma RowFitsInt32(row: int, height: int, w: int)
    requires 1 <= w && 0 <= height && height * w < 0x4000_0000
    requires -height <= row <= height
    ensures IsInt32(row) && IsInt32(row * w)
  {
    ProductWithin(row, height, w);
    MulMonotone(1, w, height);
  }

  /** |row| <= height bounds |row * w| by height * w. */
  lemma ProductWithin(row: int, height: int, w: int)
    requires -height <= row <= height && 0 <= w
    ensures -(height * w) <= row * w <= height * w
  {
    if row >= 0 {
      MulMonotone(row, height, w);
    } else {
      MulMonotone(-row, height, w);
      assert (-row) * w == -(row * w);
    }
  }

  /** Moving y rows down from pos's row and x columns on from its column reaches pos + y * w + x. */
  lemma RowThenColumn(pos: int, w: int, x: int, y: int)
    requires w > 0
    ensures (pos / w + y) * w + (pos % w + x) == pos + y * w + x
  {
    assert (pos / w + y) * w == (pos / w) * w + y * w;
    assert pos == (pos / w) * w + pos % w;
  }

  /** `pos >> shift` and `pos % w` of a position are its row and column. */
  lemma RowAndColumn(qp: QuestionPosData, cur: char)
    requires 0 <= qp.mapWidthShift <= 8 && qp.mapWidth == Pow2(qp.mapWidthShift)
    requires cur in qp.questionToPosMap && 0 <= qp.questionToPosMap[cur] < 0x4000_0000
    ensures qp.RowOf(cur) == qp.questionToPosMap[cur] / qp.mapWidth
    ensures qp.ColOf(cur) == Some(qp.questionToPosMap[cur] % qp.mapWidth)
  {
    Pow2Bound(qp.mapWidthShift);
    assert ShiftCount(qp.mapWidthShift) == qp.mapWidthShift;
    assert ToInt32(qp.questionToPosMap[cur]) == qp.questionToPosMap[cur];
  }

  /**
   * The answer's column and row as `getQuestionItemTypeAt` computes them
   * pass its two range checks (column at most mapWidth, row at most
   * mapHeight; there is no lower bound), and the row is no further above
   * the map than mapHeight, so that shifting it does not wrap.
   */
  predicate AnswerInRange(qp: QuestionPosData, pos: int, x: Option<int>, y: Option<int>)
    reads qp
    requires qp.mapWidth > 0
  {
    x.Some? && y.Some? &&
    pos % qp.mapWidth + x.value <= qp.mapWidth && -qp.mapHeight <= pos / qp.mapWidth + y.value <= qp.mapHeight
  }

  /** Some answer of q, placed relative to the question's tile, fails one of the range checks. */
  predicate SomeAnswerOutside(qp: QuestionPosData, cur: char, q: Question)
    reads qp
  {
    var row, col := Some(qp.RowOf(cur)), qp.ColOf(cur);
    NumGreater(NumAdd(col, q.xRelAnswerA), qp.mapWidth) || NumGreater(NumAdd(col, q.xRelAnswerB), qp.mapWidth) ||
    NumGreater(NumAdd(col, q.xRelAnswerC), qp.mapWidth) || NumGreater(NumAdd(col, q.xRelAnswerD), qp.mapWidth) ||
    NumGreater(NumAdd(row, q.yRelAnswerA), qp.mapHeight) || NumGreater(NumAdd(row, q.yRelAnswerB), qp.mapHeight) ||
    NumGreater(NumAdd(row, q.yRelAnswerC), qp.mapHeight) || NumGreater(NumAdd(row, q.yRelAnswerD), qp.mapHeight)
  }

  /**
   * When any answer of the active question has its column beyond mapWidth
   * or its row beyond mapHeight, no empty tile shows an answer: each gives '0'.
   */
  lemma OutsideAnswerHidesAll(qp: QuestionPosData, questions: Questions.Questions, mapIndex: int, cur: char, q: Question)
    requires qp.GetValue(mapIndex) == Some('0') && cur != '0'
    requires Questions.FindQuestion(questions.questions, questions.numQuestions, [cur], 0) == Returns(q)
    requires SomeAnswerOutside(qp, cur, q)
    ensures qp.GetQuestionItemTypeAt(mapIndex, questions, cur) == Returns('0')
  {
  }

  /**
   * With the active question's tile known and all four answers passing the
   * range checks, an empty tile shows the first answer whose offset from the
   * question mark leads to it, and '0' when none does.
   */
  lemma AnswersRelativeToQuestion(qp: QuestionPosData, questions: Questions.Questions, mapIndex: int, cur: char, q: Question)
    requires 0 <= qp.mapWidthShift <= 8 && qp.mapWidth == Pow2(qp.mapWidthShift)
    requires 0 <= qp.mapHeight && qp.mapHeight * qp.mapWidth < 0x4000_0000
    requires qp.GetValue(mapIndex) == Some('0') && cur != '0'
    requires cur in qp.questionToPosMap && 0 <= qp.questionToPosMap[cur] < 0x4000_0000
    requires Questions.FindQuestion(questions.questions, questions.numQuestions, [cur], 0) == Returns(q)
    requires var pos := qp.questionToPosMap[cur];
      && AnswerInRange(qp, pos, q.xRelAnswerA, q.yRelAnswerA) && AnswerInRange(qp, pos, q.xRelAnswerB, q.yRelAnswerB)
      && AnswerInRange(qp, pos, q.xRelAnswerC, q.yRelAnswerC) && AnswerInRange(qp, pos, q.xRelAnswerD, q.yRelAnswerD)
    ensures var pos := qp.questionToPosMap[cur];
      var w := qp.mapWidth;
      qp.GetQuestionItemTypeAt(mapIndex, questions, cur) == Returns(
        if mapIndex == pos + q.yRelAnswerA.value * w + q.xRelAnswerA.value then 'A'
        else if mapIndex == pos + q.yRelAnswerB.value * w + q.xRelAnswerB.value then 'B'
        else if mapIndex == pos + q.yRelAnswerC.value * w + q.xRelAnswerC.value then 'C'
        else if mapIndex == pos + q.yRelAnswerD.value * w + q.xRelAnswerD.value then 'D'
        else '0')
  {
    var pos := qp.questionToPosMap[cur];
    RowAndColumn(qp, cur);
    assert qp.GetQuestionItemTypeAt(mapIndex, questions, cur)
        == Returns(qp.AnswerAt(mapIndex, pos / qp.mapWidth, Some(pos % qp.mapWidth), q));
    AnswerFacts(qp, pos, q.xRelAnswerA, q.yRelAnswerA);
    AnswerFacts(qp, pos, q.xRelAnswerB, q.yRelAnswerB);
    AnswerFacts(qp, pos, q.xRelAnswerC, q.yRelAnswerC);
    AnswerFacts(qp, pos, q.xRelAnswerD, q.yRelAnswerD);
  }

  /** An answer that passes both range checks has its tile at its offset from the question mark's. */
  lemma AnswerFacts(qp: QuestionPosData, pos: int, x: Option<int>, y: Option<int>)
    requires 0 <= qp.mapWidthShift <= 8 && qp.mapWidth == Pow2(qp.mapWidthShift)
    requires 0 <= qp.mapHeight && qp.mapHeight * qp.mapWidth < 0x4000_0000
    requires 0 <= pos < 0x4000_0000 && AnswerInRange(qp, pos, x, y)
    ensures var row := NumAdd(Some(pos / qp.mapWidth), y);
      var col := NumAdd(Some(pos % qp.mapWidth), x);
      !NumGreater(col, qp.mapWidth) && !NumGreater(row, qp.mapHeight)
      && MapPosOf(row, col, qp.mapWidthShift) == Some(pos + y.value * qp.mapWidth + x.value)
  {
    AnswerTile(qp.mapWidthShift, qp.mapHeight, pos, x.value, y.value);
  }
}

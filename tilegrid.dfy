// The lookups the wall map, the prop map and the question-position map share:
// a grid of one-character tiles stored row after row in a flat array whose
// row length is 2^shift, addressed by `(y << shift) + x`.
module TileGrid {
  import opened Js
  import opened JsText
  import MathUtils

  /** `convertPointToMapPos(x, y)`: `(y << shift) + x`. */
  function ConvertPointToMapPos(shift: int, x: int, y: int): (p: int)
    ensures 0 <= shift <= 20 && 0 <= y && y * Pow2(shift) < 0x4000_0000 ==> p == y * Pow2(shift) + x
  {
    ShlInRange(shift, y);
    Shl(y, shift) + x
  }

  /** A row start below 2^30 is y * 2^shift: the shift does not wrap. */
  lemma ShlInRange(shift: int, y: int)
    ensures 0 <= shift <= 20 && 0 <= y && y * Pow2(shift) < 0x4000_0000 ==> Shl(y, shift) == y * Pow2(shift)
  {
    if 0 <= shift <= 20 && 0 <= y && y * Pow2(shift) < 0x4000_0000 {
      MulMonotone(1, Pow2(shift), y);
      assert y <= y * Pow2(shift);
      assert ToInt32(y) == y;
      assert ShiftCount(shift) == shift;
      ShlMultiplies(y, shift);
    }
  }

  /**
   * `getValue(p)`: '0' for a position outside [0, height << shift), and
   * otherwise the stored tile, which is undefined (None) past the end of the
   * array.
   */
  function GetValue(data: seq<char>, height: int, shift: int, p: int): (r: Option<char>)
    ensures p < 0 || p >= Shl(height, shift) ==> r == Some('0')
    ensures 0 <= p < Shl(height, shift) && p < |data| ==> r == Some(data[p])
    ensures 0 <= p < Shl(height, shift) && p >= |data| ==> r == None
  {
    if p < 0 || p >= Shl(height, shift) then Some('0') else At(data, p)
  }

  /**
   * `!(data[p] == '0')`, as `isWall`, `isProp` and `isQuestionPosItem` test
   * it: true unless the position holds '0', so positions outside the array
   * count as occupied.
   */
  function IsOccupied(data: seq<char>, p: int): (r: bool)
    ensures r <==> !(0 <= p < |data| && data[p] == '0')
  {
    !(At(data, p) == Some('0'))
  }

  /** Inside a row, the position splits back into its row (`p >> shift`) and column (`p % width`). */
  lemma {:induction false} ConvertInverts(shift: int, x: int, y: int)
    requires 0 <= shift <= 20 && 0 <= x < Pow2(shift) && 0 <= y && y * Pow2(shift) < 0x4000_0000
    ensures Sar(ConvertPointToMapPos(shift, x, y), shift) == y
    ensures Rem(ConvertPointToMapPos(shift, x, y), Pow2(shift)) == x
  {
    var w := Pow2(shift);
    var p := ConvertPointToMapPos(shift, x, y);
    assert p == y * w + x;
    Pow2Bound(shift);
    if y >= 1 {
      MulMonotone(1, y, w);
    }
    MulNonNegative(y, w);
    DivPlusSmall(y, w, x);
    assert IsInt32(p);
    assert Sar(p, shift) == y by {
      assert ShiftCount(shift) == shift;
      assert ToInt32(p) == p;
    }
    assert Rem(p, w) == p % w;
  }

  lemma {:induction false} DivPlusSmall(y: int, w: int, x: int)
    requires w > 0 && 0 <= x < w && 0 <= y
    ensures (y * w + x) / w == y && (y * w + x) % w == x
  {
    var n := y * w + x;
    var q, r := n / w, n % w;
    assert q * w + r == y * w + x;
    assert (q - y) * w == x - r by {
      assert (q - y) * w == q * w - y * w;
    }
    if q > y {
      assert (q - y) * w == (q - y - 1) * w + w;
      MulNonNegative(q - y - 1, w);
    } else if q < y {
      assert (y - q) * w == (y - q - 1) * w + w;
      assert (y - q) * w == -((q - y) * w);
      MulNonNegative(y - q - 1, w);
    }
  }

  lemma MulNonNegative(a: int, b: int)
    requires 0 <= a && 0 <= b
    ensures 0 <= a * b
  {
  }

  /** There is no check per axis: column `width` of row y is column 0 of row y + 1. */
  lemma ConvertAliasesNextRow(shift: int, y: int)
    requires 0 <= shift <= 20 && 0 <= y && (y + 1) * Pow2(shift) < 0x4000_0000
    ensures ConvertPointToMapPos(shift, Pow2(shift), y) == ConvertPointToMapPos(shift, 0, y + 1)
  {
    assert (y + 1) * Pow2(shift) == y * Pow2(shift) + Pow2(shift);
  }

  lemma MulMonotone(a: int, b: int, w: int)
    requires 0 <= a <= b && 0 <= w
    ensures a * w <= b * w
  {
    MulNonNegative(b - a, w);
    assert b * w - a * w == (b - a) * w;
  }

  // ---------------------------------------------------------------------------
  // Rows laid end to end

  /** The rows of a map, concatenated in order (`completeFile += cleanLine`). */
  function Concat(rows: seq<string>): (r: string)
    ensures rows == [] ==> r == ""
  {
    if rows == [] then "" else Concat(rows[..|rows| - 1]) + rows[|rows| - 1]
  }

  predicate AllWidth(rows: seq<string>, w: int) {
    forall i :: 0 <= i < |rows| ==> |rows[i]| == w
  }

  /** Rows of one width w concatenate into |rows| * w tiles. */
  lemma {:induction false} ConcatLength(rows: seq<string>, w: nat)
    requires AllWidth(rows, w)
    ensures |Concat(rows)| == |rows| * w
  {
    if rows != [] {
      var front := rows[..|rows| - 1];
      assert AllWidth(front, w) by {
        forall i | 0 <= i < |front| ensures |front[i]| == w { assert front[i] == rows[i]; }
      }
      ConcatLength(front, w);
      assert |Concat(rows)| == (|rows| - 1) * w + w;
    }
  }

  /** Row y, column x of equal-width rows is tile y * w + x of their concatenation. */
  lemma {:induction false} ConcatIndex(rows: seq<string>, w: nat, y: int, x: int)
    requires AllWidth(rows, w)
    requires 0 <= y < |rows| && 0 <= x < w
    ensures y * w + x < |Concat(rows)| && Concat(rows)[y * w + x] == rows[y][x]
  {
    var n := |rows|;
    var front := rows[..n - 1];
    assert AllWidth(front, w) by {
      forall i | 0 <= i < |front| ensures |front[i]| == w { assert front[i] == rows[i]; }
    }
    ConcatLength(front, w);
    ConcatLength(rows, w);
    if y < n - 1 {
      ConcatIndex(front, w, y, x);
      MulMonotone(y + 1, n - 1, w);
      assert y * w + x < (n - 1) * w;
      assert front[y] == rows[y];
    } else {
      assert y * w + x == (n - 1) * w + x;
    }
  }

  /** Concatenating a further row appends it. */
  lemma ConcatSnoc(rows: seq<string>, row: string)
    ensures Concat(rows + [row]) == Concat(rows) + row
  {
    assert (rows + [row])[..|rows|] == rows;
  }

  // ---------------------------------------------------------------------------
  // The map-file scanner shared by `parsePropData` and `parseQuestionPosData`

  /** The widths `isLineLengthGood` accepts. */
  predicate GoodWidth(w: int) {
    w == 16 || w == 32 || w == 64 || w == 128 || w == 256
  }

  /**
   * The line a raw line contributes: none when it is empty or empty once its
   * comments are removed, otherwise the line without its comments.
   */
  function KeepLine(line: string): (r: Option<string>)
    ensures r.Some? <==> line != "" && StripComments(line) != ""
    ensures r.Some? ==> r.value == StripComments(line)
  {
    if |line| == 0 then None
    else
      var clean := StripComments(line);
      if |clean| == 0 then None else Some(clean)
  }

  /** The lines a decision `keep` lets through, in order, each replaced by what `keep` returns for it. */
  function KeptBy(lines: seq<string>, keep: string -> Option<string>): seq<string>
  {
    if lines == [] then []
    else KeptBy(lines[..|lines| - 1], keep) + OneKept(keep(lines[|lines| - 1]))
  }

  function OneKept(k: Option<string>): (r: seq<string>)
    ensures |r| <= 1
  {
    match k
    case None => []
    case Some(c) => [c]
  }

  lemma {:induction false} KeptByAppend(a: seq<string>, b: seq<string>, keep: string -> Option<string>)
    ensures KeptBy(a + b, keep) == KeptBy(a, keep) + KeptBy(b, keep)
    decreases |b|
  {
    if b == [] {
      assert a + b == a;
    } else {
      var n := |b|;
      assert (a + b)[..|a + b| - 1] == a + b[..n - 1];
      assert (a + b)[|a + b| - 1] == b[n - 1];
      KeptByAppend(a, b[..n - 1], keep);
    }
  }

  /** The lines of a file that count, in order. */
  function Kept(lines: seq<string>): seq<string>
  {
    KeptBy(lines, KeepLine)
  }

  /** None of the lines that count is empty. */
  lemma {:induction false} KeptNonEmpty(lines: seq<string>)
    ensures forall i :: 0 <= i < |Kept(lines)| ==> Kept(lines)[i] != ""
  {
    if lines != [] {
      var front, last := lines[..|lines| - 1], lines[|lines| - 1];
      KeptNonEmpty(front);
      assert Kept(lines) == Kept(front) + OneKept(KeepLine(last));
      forall i | 0 <= i < |Kept(lines)| ensures Kept(lines)[i] != "" {
        if i < |Kept(front)| {
          assert Kept(lines)[i] == Kept(front)[i];
        } else {
          assert Kept(lines)[i] == KeepLine(last).value;
        }
      }
    }
  }

  lemma KeptAppend(a: seq<string>, b: seq<string>)
    ensures Kept(a + b) == Kept(a) + Kept(b)
  {
    KeptByAppend(a, b, KeepLine);
  }

  /** The number of leading rows of width w. */
  function LeadingWidth(rows: seq<string>, w: int): (n: nat)
    ensures n <= |rows|
    ensures AllWidth(rows[..n], w)
    ensures n < |rows| ==> |rows[n]| != w
  {
    if rows == [] || |rows[0]| != w then 0
    else
      var m := LeadingWidth(rows[1..], w);
      var t := rows[1..][..m];
      assert forall i :: 0 <= i < m ==> rows[..m + 1][i + 1] == t[i];
      1 + m
  }

  lemma {:induction false} LeadingWidthAppend(p: seq<string>, q: seq<string>, w: int)
    requires AllWidth(p, w)
    ensures LeadingWidth(p + q, w) == |p| + LeadingWidth(q, w)
    decreases |p|
  {
    if p == [] {
      assert p + q == q;
    } else {
      assert (p + q)[0] == p[0];
      assert (p + q)[1..] == p[1..] + q;
      assert AllWidth(p[1..], w) by {
        forall i | 0 <= i < |p| - 1 ensures |p[1..][i]| == w { assert p[1..][i] == p[i + 1]; }
      }
      LeadingWidthAppend(p[1..], q, w);
    }
  }

  /** How a scan stopped. */
  datatype ScanEnd =
    | AllRead              // every line was read
    | Mismatch             // a later line's length differed from the first line's
    | BadFirstWidth        // the first line's length is not a permitted width: `isLineLengthGood` throws

  /**
   * What the parse loop leaves behind: the count of lines that reached the
   * width check, the width taken from the first line (-1 when there was
   * none), and the lower-cased concatenation of the lines accepted.
   */
  datatype Scan = Scan(lineNum: int, width: int, file: string, end: ScanEnd)

  /** The scan as a function of the kept lines, stated through the leading run of equal-width lines. */
  function ScanSpec(kept: seq<string>): (s: Scan)
  {
    if kept == [] then Scan(0, -1, "", AllRead)
    else
      var w := |kept[0]|;
      if !GoodWidth(w) then Scan(1, w, "", BadFirstWidth)
      else
        var n := LeadingWidth(kept, w);
        if n == |kept| then Scan(n, w, Lower(Concat(kept)), AllRead)
        else Scan(n + 1, w, Lower(Concat(kept[..n])), Mismatch)
  }

  /** A scan that stops early does not depend on the lines after the one it stopped at. */
  lemma ScanSpecStopsEarly(kept: seq<string>, rest: seq<string>)
    requires ScanSpec(kept).end != AllRead
    ensures ScanSpec(kept + rest) == ScanSpec(kept)
  {
    var w := |kept[0]|;
    assert (kept + rest)[0] == kept[0];
    if GoodWidth(w) {
      var n := LeadingWidth(kept, w);
      var pre := kept[..n];
      assert kept == pre + kept[n..];
      assert kept + rest == pre + (kept[n..] + rest);
      LeadingWidthAppend(pre, kept[n..] + rest, w);
      LeadingWidthAppend(pre, kept[n..], w);
      assert (kept + rest)[..n] == pre;
    }
  }

  /** One more line either leaves the kept lines alone or appends its cleaned text. */
  lemma KeptStep(lines: seq<string>, i: nat)
    requires i < |lines|
    ensures Kept(lines[..i + 1]) == Kept(lines[..i]) + OneKept(KeepLine(lines[i]))
    ensures Kept(lines) == Kept(lines[..i + 1]) + Kept(lines[i + 1..])
  {
    assert lines[..i + 1] == lines[..i] + [lines[i]];
    assert lines == lines[..i + 1] + lines[i + 1..];
    KeptByAppend(lines[..i], [lines[i]], KeepLine);
    assert KeptBy([lines[i]], KeepLine) == OneKept(KeepLine(lines[i])) by {
      assert [lines[i]][..0] == [];
    }
    KeptByAppend(lines[..i + 1], lines[i + 1..], KeepLine);
  }

  /** What the scan loop holds after the kept lines `kept`, none of which stopped it. */
  predicate ScanInvariant(kept: seq<string>, lineNum: int, width: int, file: string) {
    && lineNum == |kept|
    && (kept == [] ==> width == -1 && file == "")
    && (kept != [] ==> width == |kept[0]| && GoodWidth(width) && AllWidth(kept, width) && file == Lower(Concat(kept)))
  }

  /** A line of the first line's width is counted and its lower-cased text appended. */
  lemma AcceptLine(kept: seq<string>, lineNum: int, width: int, file: string, clean: string)
    requires ScanInvariant(kept, lineNum, width, file)
    requires clean != "" && (kept == [] ==> GoodWidth(|clean|)) && (kept != [] ==> |clean| == width)
    ensures ScanInvariant(kept + [clean], lineNum + 1, |clean|, file + Lower(clean))
  {
    ConcatSnoc(kept, clean);
    LowerAppend(Concat(kept), clean);
    var k := kept + [clean];
    if kept == [] {
      assert k == [clean];
      assert Concat(k) == Concat([]) + clean;
    } else {
      assert k[0] == kept[0];
      AllWidthSnoc(kept, clean, width);
    }
  }

  /** A row of width w keeps rows of width w all of width w. */
  lemma AllWidthSnoc(rows: seq<string>, row: string, w: int)
    requires AllWidth(rows, w) && |row| == w
    ensures AllWidth(rows + [row], w)
  {
    var k := rows + [row];
    forall i | 0 <= i < |k| ensures |k[i]| == w {
      if i < |rows| { assert k[i] == rows[i]; }
    }
  }

  /** When the scan runs to the end, it is the specification's scan. */
  lemma ScanSpecAllRead(kept: seq<string>, lineNum: int, width: int, file: string)
    requires ScanInvariant(kept, lineNum, width, file)
    ensures ScanSpec(kept) == Scan(lineNum, width, file, AllRead)
  {
    if kept != [] {
      LeadingWidthAppend(kept, [], width);
      assert kept + [] == kept;
    }
  }

  /**
   * The loop of `parsePropData`/`parseQuestionPosData` (PropData.js:132-157):
   * split into lines, drop the empty and comment-only ones, count each
   * remaining one, take the first one's width, stop at a bad first width or
   * at a line of another width, and collect the lower-cased lines.
   */
  method ScanLines(data: string) returns (s: Scan)
    ensures s == ScanSpec(Kept(SplitLines(data)))
  {
    var lines := SplitLines(data);
    s := Scan(0, -1, "", AllRead);
    var i := 0;
    ghost var kept: seq<string> := [];
    while i < |lines|
      invariant 0 <= i <= |lines|
      invariant kept == Kept(lines[..i])
      invariant s.end == AllRead && ScanInvariant(kept, s.lineNum, s.width, s.file)
    {
      KeptStep(lines, i);
      ghost var kept' := kept + OneKept(KeepLine(lines[i]));
      assert kept' == Kept(lines[..i + 1]) && Kept(lines) == kept' + Kept(lines[i + 1..]);
      var next := ScanLine(lines[i], s.lineNum, s.width, s.file, kept, Kept(lines[i + 1..]));
      s := next;
      if s.end != AllRead {
        return;
      }
      kept := kept';
      i := i + 1;
    }
    assert lines[..i] == lines;
    ScanSpecAllRead(kept, s.lineNum, s.width, s.file);
  }

  /**
   * The loop body on one raw line, from a scan of the lines `kept` that has
   * not stopped: an empty or comment-only line is skipped; otherwise the
   * line is counted and either stops the scan (a bad first width, or another
   * width than the first line's) or is appended. A scan that stops is the
   * specification's scan whatever lines `rest` come after.
   */
  method ScanLine(line: string, lineNum: int, width: int, file: string, ghost kept: seq<string>, ghost rest: seq<string>)
    returns (s: Scan)
    requires ScanInvariant(kept, lineNum, width, file)
    ensures s.end != AllRead ==> s == ScanSpec(kept + OneKept(KeepLine(line)) + rest)
    ensures s.end == AllRead ==> ScanInvariant(kept + OneKept(KeepLine(line)), s.lineNum, s.width, s.file)
  {
    if |line| == 0 {
      assert kept + OneKept(KeepLine(line)) == kept;
      return Scan(lineNum, width, file, AllRead);
    }
    var clean := StripComments(line);
    if |clean| == 0 {
      assert kept + OneKept(KeepLine(line)) == kept;
      return Scan(lineNum, width, file, AllRead);
    }
    assert OneKept(KeepLine(line)) == [clean];
    if width == -1 {
      if !GoodWidth(|clean|) {
        ScanSpecStopsEarly(kept + [clean], rest);
        return Scan(lineNum + 1, |clean|, "", BadFirstWidth);
      }
    } else if |clean| != width {
      FirstMismatch(kept, clean, rest);
      return Scan(lineNum + 1, width, file, Mismatch);
    }
    AcceptLine(kept, lineNum, width, file, clean);
    s := Scan(lineNum + 1, |clean|, file + Lower(clean), AllRead);
  }

  lemma FirstMismatch(kept: seq<string>, clean: string, rest: seq<string>)
    requires kept != [] && GoodWidth(|kept[0]|) && AllWidth(kept, |kept[0]|)
    requires |clean| != |kept[0]|
    ensures ScanSpec(kept + [clean] + rest) == Scan(|kept| + 1, |kept[0]|, Lower(Concat(kept)), Mismatch)
  {
    var w := |kept[0]|;
    var k := kept + [clean];
    LeadingWidthAppend(kept, [clean], w);
    assert LeadingWidth([clean], w) == 0;
    assert LeadingWidth(k, w) == |kept|;
    assert k[0] == kept[0];
    assert k[..|kept|] == kept;
    assert ScanSpec(k) == Scan(|kept| + 1, w, Lower(Concat(kept)), Mismatch);
    ScanSpecStopsEarly(k, rest);
  }

  /** The rows the scan commits: all of them, or those before the mismatching one. */
  function Committed(s: Scan): int {
    if s.end == Mismatch then s.lineNum - 1 else s.lineNum
  }

  /**
   * What the scan promises: it throws exactly when the first kept line has a
   * width `isLineLengthGood` refuses; otherwise the first line fixes a good
   * width, a mismatch is the first line of another width and is counted in
   * `lineNum`, and the file is the lower-cased committed lines, width tiles each.
   */
  lemma {:induction false} ScanSpecFacts(kept: seq<string>)
    ensures var s := ScanSpec(kept);
      && (s.end == BadFirstWidth <==> kept != [] && !GoodWidth(|kept[0]|))
      && (s.end == BadFirstWidth ==> s.lineNum == 1 && s.width == |kept[0]|)
      && (s.end != BadFirstWidth && kept != [] ==>
            && s.width == |kept[0]| && GoodWidth(s.width)
            && 1 <= Committed(s) <= |kept|
            && AllWidth(kept[..Committed(s)], s.width)
            && s.file == Lower(Concat(kept[..Committed(s)]))
            && |s.file| == Committed(s) * s.width)
      && (s.end == AllRead ==> s.lineNum == |kept|)
      && (s.end == Mismatch ==> 2 <= s.lineNum <= |kept| && |kept[s.lineNum - 1]| != s.width)
      && (kept == [] ==> s == Scan(0, -1, "", AllRead))
  {
    var s := ScanSpec(kept);
    if kept != [] && GoodWidth(|kept[0]|) {
      var w := |kept[0]|;
      var n := LeadingWidth(kept, w);
      if n == |kept| {
        assert kept[..n] == kept;
      }
      ConcatLength(kept[..Committed(s)], w);
    }
  }

  /** An empty line, or one that is only a comment, changes nothing. */
  lemma IgnoredLine(a: seq<string>, line: string, b: seq<string>)
    requires line == "" || StripComments(line) == ""
    ensures Kept(a + [line] + b) == Kept(a + b)
  {
    KeptAppend(a + [line], b);
    KeptAppend(a, b);
    assert (a + [line])[..|a|] == a;
  }

  /** For instance a line holding only a line comment is ignored. */
  lemma CommentLineIgnored(a: seq<string>, tail: string, b: seq<string>)
    requires !HasLineTerminator(tail)
    ensures Kept(a + ["//" + tail] + b) == Kept(a + b)
  {
    LineCommentRemoved(tail);
    IgnoredLine(a, "//" + tail, b);
  }

  /** The messages the parsers pass to `dumpError`. */
  datatype Report =
    | InconsistentLine(lineNum: int)   // line lineNum is not as long as the first line
    | LineCountMismatch                // the file has a different number of lines than mapHeight

  /**
   * `isLineLengthGood(width)`: true for 16, 32, 64, 128 and 256. For any other
   * width the error branch reads the undeclared `that` under 'use strict' and
   * throws a ReferenceError before reporting anything.
   */
  function IsLineLengthGood(width: int): (r: Outcome<bool>)
    ensures r == Returns(true) <==> GoodWidth(width)
    ensures !GoodWidth(width) ==> r == Throws(ReferenceError)
    ensures r != Returns(false)
  {
    if GoodWidth(width) then Returns(true) else Throws(ReferenceError)
  }

  /** The scan of a whole map file. */
  function ParseScan(data: string): Scan {
    ScanSpec(Kept(SplitLines(data)))
  }

  /**
   * After a committed parse the grid holds `Committed` rows of 2^shift tiles,
   * where shift is `logarithmBaseTwo(width)`; `mapHeight` (the line count)
   * equals that row count when every line was read, and exceeds it by one
   * after a mismatch.
   */
  lemma CommittedShape(kept: seq<string>)
    requires ScanSpec(kept).end != BadFirstWidth && ScanSpec(kept).width != -1
    requires ScanSpec(kept).lineNum < 0x10_0000
    ensures var s := ScanSpec(kept); var shift := MathUtils.LogarithmBaseTwo(s.width);
      && Pow2(shift) == s.width
      && Shl(Committed(s), shift) == |s.file|
      && (s.end == Mismatch ==> Shl(s.lineNum, shift) == |s.file| + s.width)
  {
    ScanSpecFacts(kept);
    ScanShape(ScanSpec(kept));
  }

  lemma ScanShape(s: Scan)
    requires s.end != BadFirstWidth && GoodWidth(s.width) && 0 <= Committed(s) <= s.lineNum < 0x10_0000
    requires |s.file| == Committed(s) * s.width
    ensures var shift := MathUtils.LogarithmBaseTwo(s.width);
      && Pow2(shift) == s.width
      && Shl(Committed(s), shift) == |s.file|
      && (s.end == Mismatch ==> Shl(s.lineNum, shift) == |s.file| + s.width)
  {
    var c, n, w := Committed(s), s.lineNum, s.width;
    ShlByGoodWidth(c, w);
    ShlByGoodWidth(n, w);
    if s.end == Mismatch {
      MulSucc(c, w);
    }
  }

  lemma MulSucc(c: int, w: int)
    ensures (c + 1) * w == c * w + w
  {
  }

  /** For a good width w and a count c below 2^20, `c << logarithmBaseTwo(w)` is c * w. */
  lemma ShlByGoodWidth(c: int, w: int)
    requires GoodWidth(w) && 0 <= c < 0x10_0000
    ensures Pow2(MathUtils.LogarithmBaseTwo(w)) == w
    ensures Shl(c, MathUtils.LogarithmBaseTwo(w)) == c * w
  {
    var shift := MathUtils.LogarithmBaseTwo(w);
    MathUtils.Pow2Table();
    assert MathUtils.IsKnownPowerOfTwo(w) by {
      if w == 16 { assert Pow2(4) == w; }
      else if w == 32 { assert Pow2(5) == w; }
      else if w == 64 { assert Pow2(6) == w; }
      else if w == 128 { assert Pow2(7) == w; }
      else { assert Pow2(8) == w; }
    }
    assert 0 <= shift <= 8;
    assert ShiftCount(shift) == shift;
    MulMonotone(c, 0x10_0000, w);
    MulNonNegative(c, w);
  }

  /** Once every line was read, each position below `mapHeight << shift` holds a stored tile. */
  lemma CompleteGridLookups(kept: seq<string>, p: int)
    requires ScanSpec(kept).end == AllRead && ScanSpec(kept).width != -1
    requires ScanSpec(kept).lineNum < 0x10_0000
    requires 0 <= p < Shl(ScanSpec(kept).lineNum, MathUtils.LogarithmBaseTwo(ScanSpec(kept).width))
    ensures var s := ScanSpec(kept);
      p < |s.file| && GetValue(s.file, s.lineNum, MathUtils.LogarithmBaseTwo(s.width), p) == Some(s.file[p])
  {
    var s := ScanSpec(kept);
    CommittedShape(kept);
    var shift := MathUtils.LogarithmBaseTwo(s.width);
    assert Shl(s.lineNum, shift) == |s.file|;
    LookupInside(s.file, s.lineNum, shift, p);
  }

  lemma LookupInside(data: seq<char>, height: int, shift: int, p: int)
    requires 0 <= p < Shl(height, shift) == |data|
    ensures GetValue(data, height, shift, p) == Some(data[p])
  {
  }

  /**
   * After a mismatch the line count includes the offending line, so the last
   * row below `mapHeight << shift` lies past the stored tiles: it reads as
   * undefined, which the occupancy tests count as occupied.
   */
  lemma MismatchLastRowUndefined(kept: seq<string>, p: int)
    requires ScanSpec(kept).end == Mismatch
    requires ScanSpec(kept).lineNum < 0x10_0000
    requires |ScanSpec(kept).file| <= p < |ScanSpec(kept).file| + ScanSpec(kept).width
    ensures var s := ScanSpec(kept);
      && GetValue(s.file, s.lineNum, MathUtils.LogarithmBaseTwo(s.width), p) == None
      && IsOccupied(s.file, p)
  {
    ScanSpecFacts(kept);
    CommittedShape(kept);
  }

  /** An image loaded for a tile character: the file it came from and its size. */
  datatype ImageCanvas = ImageCanvas(fileName: string, width: int, height: int)

  /** `getCanvasImage(ch)`: the image stored under ch, or null. */
  function LookupImage(images: map<string, ImageCanvas>, ch: string): (r: Option<ImageCanvas>)
    ensures r.Some? <==> ch in images
    ensures r.Some? ==> r.value == images[ch]
  {
    if ch in images then Some(images[ch]) else None
  }
}

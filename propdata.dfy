// The prop map: an aerial view of where the props stand, one base-36 digit
// per tile ('0' for none), read from a map file whose first line fixes the
// width.
module PropData {
  import opened Js
  import opened JsText
  import opened TileGrid
  import MathUtils

  /** The built-in 8x8 prop map, top to bottom. */
  function DefaultRows(): seq<string> {
    ["00000000",
     "00000000",
     "00000300",
     "00002010",
     "00000000",
     "00000000",
     "00000000",
     "00000000"]
  }

  /** `Math.max` on integral numbers. */
  function Max(a: int, b: int): (r: int)
    ensures r >= a && r >= b && (r == a || r == b)
  {
    if a >= b then a else b
  }

  /** The largest base-36 tile value of data, starting from start. */
  function HighImageNum(start: int, data: seq<char>): int {
    if data == [] then start
    else Max(MathUtils.Base36ToBase10([data[|data| - 1]]), HighImageNum(start, data[..|data| - 1]))
  }

  /** The result bounds the start and every tile's value, and is one of them. */
  lemma {:induction false} HighImageNumIsMax(start: int, data: seq<char>)
    ensures HighImageNum(start, data) >= start
    ensures forall i :: 0 <= i < |data| ==> HighImageNum(start, data) >= MathUtils.Base36ToBase10([data[i]])
    ensures HighImageNum(start, data) == start ||
            exists i :: 0 <= i < |data| && HighImageNum(start, data) == MathUtils.Base36ToBase10([data[i]])
  {
    if data != [] {
      var front := data[..|data| - 1];
      HighImageNumIsMax(start, front);
      forall i | 0 <= i < |data| ensures HighImageNum(start, data) >= MathUtils.Base36ToBase10([data[i]]) {
        if i < |front| { assert front[i] == data[i]; }
      }
      if HighImageNum(start, data) != start && HighImageNum(start, data) != MathUtils.Base36ToBase10([data[|data| - 1]]) {
        var i :| 0 <= i < |front| && HighImageNum(start, front) == MathUtils.Base36ToBase10([front[i]]);
        assert front[i] == data[i];
      }
    }
  }

  class PropData {
    var mapWidth: int
    var mapWidthShift: int
    var mapHeight: int
    var numPropImgs: int
    var propCanvasImgs: map<string, ImageCanvas>
    var propData: seq<char>

    /** Width, height and shift come from the wall map; the tiles start as the built-in map. */
    constructor(mapHeight: int, mapWidth: int, mapWidthShift: int)
      ensures this.mapWidth == mapWidth && this.mapWidthShift == mapWidthShift && this.mapHeight == mapHeight
      ensures numPropImgs == 0 && propCanvasImgs == map[]
      ensures propData == Concat(DefaultRows())
    {
      this.mapWidth := mapWidth;
      this.mapWidthShift := mapWidthShift;
      this.mapHeight := mapHeight;
      numPropImgs := 0;
      propCanvasImgs := map[];
      propData := Concat(DefaultRows());
    }

    /** `isProp(p)`: every position except one holding '0' is a prop, including those outside the array. */
    function IsProp(mapPos: int): (r: bool)
      reads this
      ensures r <==> !(0 <= mapPos < |propData| && propData[mapPos] == '0')
    {
      IsOccupied(propData, mapPos)
    }

    /** `getValue(p)`: '0' outside [0, mapHeight << mapWidthShift), the stored tile (or undefined) inside. */
    function GetValue(mapPos: int): (r: Option<char>)
      reads this
      ensures mapPos < 0 || mapPos >= Shl(mapHeight, mapWidthShift) ==> r == Some('0')
      ensures 0 <= mapPos < Shl(mapHeight, mapWidthShift) ==> r == At(propData, mapPos)
    {
      TileGrid.GetValue(propData, mapHeight, mapWidthShift, mapPos)
    }

    /** `convertPointToMapPos(x, y)`: y * 2^mapWidthShift + x in the usual range. */
    function ConvertPointToMapPos(x: int, y: int): (p: int)
      reads this
      ensures 0 <= mapWidthShift <= 20 && 0 <= y && y * Pow2(mapWidthShift) < 0x4000_0000 ==>
                p == y * Pow2(mapWidthShift) + x
    {
      TileGrid.ConvertPointToMapPos(mapWidthShift, x, y)
    }

    /** `getCanvasImage(ch)`: the prop image loaded for ch, or null. */
    function GetCanvasImage(ch: string): (r: Option<ImageCanvas>)
      reads this
      ensures r.Some? <==> ch in propCanvasImgs
      ensures r.Some? ==> r.value == propCanvasImgs[ch]
    {
      LookupImage(propCanvasImgs, ch)
    }

    /**
     * `setAllTimeHighImageNum()`: raises numPropImgs to the largest base-36
     * value among the tiles; it is never lowered.
     */
    method SetAllTimeHighImageNum()
      modifies this
      ensures numPropImgs == HighImageNum(old(numPropImgs), propData)
      ensures propData == old(propData) && mapWidth == old(mapWidth) && mapWidthShift == old(mapWidthShift)
      ensures mapHeight == old(mapHeight) && propCanvasImgs == old(propCanvasImgs)
    {
      var i := 0;
      while i < |propData|
        invariant 0 <= i <= |propData|
        invariant numPropImgs == HighImageNum(old(numPropImgs), propData[..i])
        invariant propData == old(propData) && mapWidth == old(mapWidth) && mapWidthShift == old(mapWidthShift)
        invariant mapHeight == old(mapHeight) && propCanvasImgs == old(propCanvasImgs)
      {
        assert propData[..i + 1][..i] == propData[..i];
        var curVal := MathUtils.Base36ToBase10([propData[i]]);
        numPropImgs := Max(curVal, numPropImgs);
        i := i + 1;
      }
      assert propData[..i] == propData;
    }

    /**
     * `parsePropData(data)`: scans the file; a bad first width throws after
     * setting mapWidth; otherwise a mismatching line and a line count that
     * differs from the wall map's are reported, and unless the file had no
     * lines the scanned tiles, the line count and the width's shift are
     * committed and numPropImgs is raised.
     */
    method ParsePropData(data: string) returns (reports: seq<Report>, thrown: Option<JsError>)
      modifies this
      ensures var s := ParseScan(data);
        && mapWidth == s.width
        && propCanvasImgs == old(propCanvasImgs)
        && (s.end == BadFirstWidth ==>
              && thrown == Some(ReferenceError) && reports == []
              && mapWidthShift == old(mapWidthShift) && mapHeight == old(mapHeight)
              && propData == old(propData) && numPropImgs == old(numPropImgs))
        && (s.end != BadFirstWidth ==>
              && thrown == None
              && reports == (if s.end == Mismatch then [InconsistentLine(s.lineNum)] else []) +
                            (if s.lineNum != old(mapHeight) then [LineCountMismatch] else []))
        && (s.end != BadFirstWidth && s.width == -1 ==>
              && mapWidthShift == old(mapWidthShift) && mapHeight == old(mapHeight)
              && propData == old(propData) && numPropImgs == old(numPropImgs))
        && (s.end != BadFirstWidth && s.width != -1 ==>
              && mapWidthShift == MathUtils.LogarithmBaseTwo(s.width)
              && mapHeight == s.lineNum && propData == s.file
              && numPropImgs == HighImageNum(old(numPropImgs), s.file))
    {
      var s := ScanLines(data);
      mapWidth := s.width;
      if s.end == BadFirstWidth {
        reports := [];
        thrown := Some(ReferenceError);
        return;
      }
      if s.width != -1 {
        mapWidthShift := MathUtils.LogarithmBaseTwo(s.width);
      }
      reports := if s.end == Mismatch then [InconsistentLine(s.lineNum)] else [];
      if s.lineNum != mapHeight {
        reports := reports + [LineCountMismatch];
      }
      thrown := None;
      if mapWidth != -1 {
        mapHeight := s.lineNum;
        propData := s.file;
        SetAllTimeHighImageNum();
      }
    }
  }

  /** Every tile of the built-in map is one of the digits 0 to 3. */
  lemma DefaultDigit(y: int, x: int)
    requires 0 <= y < 8 && 0 <= x < 8
    ensures '0' <= DefaultRows()[y][x] <= '3'
  {
  }

  /** The built-in map holds the three props 1, 2 and 3, so their images are the ones expected. */
  lemma DefaultHighImageNum()
    ensures |Concat(DefaultRows())| == 64
    ensures HighImageNum(0, Concat(DefaultRows())) == 3
  {
    var rows := DefaultRows();
    ConcatLength(rows, 8);
    var d := Concat(rows);
    HighImageNumIsMax(0, d);
    forall i | 0 <= i < 64 ensures MathUtils.Base36ToBase10([d[i]]) <= 3 {
      var y, x := i / 8, i % 8;
      ConcatIndex(rows, 8, y, x);
      DefaultDigit(y, x);
      assert i == y * 8 + x;
    }
    ConcatIndex(rows, 8, 2, 5);
    assert rows[2][5] == '3';
    assert d[21] == '3';
    assert MathUtils.Base36ToBase10([d[21]]) == 3;
  }
}

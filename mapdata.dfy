// The wall map: an aerial view of the maze, one character per 64x64 tile,
// '0' for open floor and anything else for a wall.
module MapData {
  import opened Js
  import TileGrid

  datatype MapGrid = MapGrid(mapWidth: int, mapWidthShift: int, mapHeight: int, mapData: seq<char>)

  /** The rows of the built-in 8x8 maze, top to bottom: a walled border with a small block inside. */
  function DefaultRows(): seq<string> {
    ["11111111",
     "10000001",
     "10000001",
     "10000111",
     "10001101",
     "10000001",
     "10000001",
     "11111111"]
  }

  /** The widest and tallest grid whose coordinates stay inside the 32-bit range the shift operators use. */
  const MaxTiles: int := 0x10_0000

  /** A grid with at most MaxTiles columns and rows. */
  predicate Bounded(m: MapGrid) {
    0 <= m.mapWidth <= MaxTiles && 0 <= m.mapHeight <= MaxTiles
  }

  function Default(): MapGrid {
    MapGrid(8, 3, 8, TileGrid.Concat(DefaultRows()))
  }

  /** `isWall(p)`: every position except one holding '0' is a wall, including those outside the array. */
  function IsWall(m: MapGrid, mapPos: int): (r: bool)
    ensures r <==> !(0 <= mapPos < |m.mapData| && m.mapData[mapPos] == '0')
  {
    TileGrid.IsOccupied(m.mapData, mapPos)
  }

  /** `getValue(p)`: '0' outside [0, mapHeight << mapWidthShift), the stored tile inside. */
  function GetValue(m: MapGrid, mapPos: int): (r: Option<char>)
    ensures mapPos < 0 || mapPos >= Shl(m.mapHeight, m.mapWidthShift) ==> r == Some('0')
    ensures 0 <= mapPos < Shl(m.mapHeight, m.mapWidthShift) && mapPos < |m.mapData| ==> r == Some(m.mapData[mapPos])
  {
    TileGrid.GetValue(m.mapData, m.mapHeight, m.mapWidthShift, mapPos)
  }

  /** `convertPointToMapPos(x, y)`: row y, column x, as y * 2^mapWidthShift + x in the usual range. */
  function ConvertPointToMapPos(m: MapGrid, x: int, y: int): (p: int)
    ensures 0 <= m.mapWidthShift <= 20 && 0 <= y && y * Pow2(m.mapWidthShift) < 0x4000_0000 ==>
              p == y * Pow2(m.mapWidthShift) + x
  {
    TileGrid.ConvertPointToMapPos(m.mapWidthShift, x, y)
  }

  /** The dimensions the built-in map declares agree with its data: 2^3 == 8 columns, 8 rows, 64 tiles. */
  lemma DefaultShape()
    ensures Bounded(Default())
    ensures Default().mapWidth == Pow2(Default().mapWidthShift)
    ensures |Default().mapData| == Default().mapWidth * Default().mapHeight == 64
    ensures Shl(Default().mapHeight, Default().mapWidthShift) == 64
  {
    Pow2Values();
    TileGrid.ConcatLength(DefaultRows(), 8);
  }

  /** Tile (x, y) of the built-in map is character x of row y. */
  lemma DefaultTile(x: int, y: int)
    requires 0 <= x < 8 && 0 <= y < 8
    ensures ConvertPointToMapPos(Default(), x, y) == y * 8 + x
    ensures IsWall(Default(), y * 8 + x) <==> DefaultRows()[y][x] != '0'
  {
    Pow2Values();
    TileGrid.ConcatIndex(DefaultRows(), 8, y, x);
  }

  /** Every border tile of the built-in map is a wall. */
  lemma DefaultBorderIsWall(x: int, y: int)
    requires 0 <= x < 8 && 0 <= y < 8
    requires x == 0 || x == 7 || y == 0 || y == 7
    ensures IsWall(Default(), ConvertPointToMapPos(Default(), x, y))
  {
    DefaultTile(x, y);
    var r := DefaultRows();
    assert r[y][0] == '1' && r[y][7] == '1';
    assert r[0] == "11111111" && r[7] == "11111111";
  }

  /** The player's start point (80, 224) lies in tile column 1, row 3, which is open floor. */
  lemma PlayerStartIsOpen()
    ensures Sar(80, 6) == 1 && Sar(224, 6) == 3
    ensures !IsWall(Default(), ConvertPointToMapPos(Default(), Sar(80, 6), Sar(224, 6)))
  {
    Pow2Values();
    DefaultTile(1, 3);
    assert DefaultRows()[3][1] == '0';
  }
}

// The raycaster: the player's position and heading on the aerial map, the
// two grid-line walks that find the wall a ray meets, and the drawing of one
// frame, column by column, into a 320 x 200 buffer laid over the background.
//
// The walks and the drawing are stated as pure functions of a Scene (the
// grid, the table entries, the wall texture and the player); the methods of
// class Maze are proved to compute exactly those.
module Maze {
  import opened Js
  import opened Trig
  import opened Pixels
  import opened WallHits
  import MapData
  import MazeGlobals
  import Background

  const WallHeight: int := 64
  const PlayerDistanceToTheProjectionPlane: int := 277
  const PlayerHeight: int := 32
  const PlayerSpeed: int := 16
  const ProjectionPlaneYCenter: int := 100
  const SliceWidth: int := 1

  // ---------------------------------------------------------------------
  // Heading

  /** `rotateLeft`'s new heading: ANGLE10 less, wrapped back into one turn. */
  function TurnLeft(arc: int): (r: int)
    ensures 0 <= arc < ANGLE360 ==> 0 <= r < ANGLE360 && r == (arc - ANGLE10) % ANGLE360
  {
    AngleValues();
    if arc - ANGLE10 < ANGLE0 then arc - ANGLE10 + ANGLE360 else arc - ANGLE10
  }

  /** `rotateRight`'s new heading: ANGLE10 more, wrapped back into one turn. */
  function TurnRight(arc: int): (r: int)
    ensures 0 <= arc < ANGLE360 ==> 0 <= r < ANGLE360 && r == (arc + ANGLE10) % ANGLE360
  {
    AngleValues();
    if arc + ANGLE10 >= ANGLE360 then arc + ANGLE10 - ANGLE360 else arc + ANGLE10
  }

  /** A right turn undoes a left turn and a left turn undoes a right turn. */
  lemma TurnsUndoEachOther(arc: int)
    requires 0 <= arc < ANGLE360
    ensures TurnRight(TurnLeft(arc)) == arc && TurnLeft(TurnRight(arc)) == arc
  {
    AngleValues();
  }

  /**
   * The angle column c of the projection plane is cast at: the player's
   * heading minus ANGLE30, plus one unit per column, within one turn. The
   * middle column looks straight ahead.
   */
  function ColumnArc(playerArc: int, c: int): (r: int)
    ensures 0 <= r < ANGLE360
    ensures (r - (playerArc - ANGLE30 + c)) % ANGLE360 == 0
    ensures 0 <= playerArc < ANGLE360 ==> ColumnArcAt(playerArc, ANGLE30) == playerArc
  {
    AngleValues();
    ColumnArcAt(playerArc, c)
  }

  function ColumnArcAt(playerArc: int, c: int): int {
    AngleValues();
    (playerArc - ANGLE30 + c) % ANGLE360
  }

  // ---------------------------------------------------------------------
  // The two ray casts

  /** `(p >> TILE_SIZE_SHIFT) << TILE_SIZE_SHIFT`: a coordinate rounded down to the first line of its tile. */
  function GridBase(p: real): (b: int)
    ensures b == Shl(SarReal(p, 6), 6)
    ensures -TWO31 <= b <= TWO31 - 64 && b % 64 == 0
    ensures 0.0 <= p < TWO31 as real ==> b as real <= p < (b + 64) as real
  {
    var t := ToInt32(Trunc(p));
    RoundDownToTile(t);
    assert SarReal(p, 6) == Sar(t, 6);
    t - t % 64
  }

  /** Shifting a 32-bit value right and back left by 6 clears its low six bits, rounding down to a multiple of 64. */
  lemma RoundDownToTile(t: int)
    requires IsInt32(t)
    ensures Shl(Sar(t, 6), 6) == t - t % 64
    ensures -TWO31 <= t - t % 64 <= TWO31 - 64 && (t - t % 64) % 64 == 0
    ensures t - t % 64 <= t < t - t % 64 + 64
  {
    ShiftBySixFacts(t);
    ShiftBySixFacts(t / 64);
  }

  /** The line the first intersection is computed from: the next tile's first line going forward, the own tile's going back. */
  function ApproachLine(p: real, forward: bool): int {
    if forward then GridBase(p) + MazeGlobals.TileSize else GridBase(p)
  }

  /**
   * The grid line a walk starts on: going forward the first line past the
   * player; going back one less than the player's tile's first line, so
   * that it belongs to the tile behind that line.
   */
  function StartLine(p: real, forward: bool): (g: int)
    ensures -TWO31 - 1 <= g <= TWO31
    ensures 0.0 <= p < TWO31 as real && forward ==> g % 64 == 0 && p < g as real <= p + 64.0
    ensures 0.0 <= p < TWO31 as real && !forward ==> (g + 1) % 64 == 0 && (g + 1) as real <= p < (g + 65) as real
  {
    if forward then ApproachLine(p, forward) else ApproachLine(p, forward) - 1
  }

  /** `castRayForHorizHit` walks down the aerial map for angles strictly between ANGLE0 and ANGLE180. */
  predicate RayGoesDown(castArc: int) { castArc > ANGLE0 && castArc < ANGLE180 }

  /** `castRayForVertHit` walks right for angles below ANGLE90 or above ANGLE270. */
  predicate RayGoesRight(castArc: int) { castArc < ANGLE90 || castArc > ANGLE270 }

  /** Where a cast's walk begins: the first grid line, the intersection of the ray with it, and the step across lines. */
  datatype Start = Start(line: int, at: real, step: int)

  /**
   * The start of `castRayForHorizHit(castArc)`: the first horizontal line
   * in the ray's direction, and where the ray meets the approach line,
   * playerX + (line - playerY) * iTan.
   */
  function HorizStart(px: real, py: real, castArc: int, iTan: real): (s: Start)
    ensures -TWO31 - 1 <= s.line <= TWO31 && (s.step == 64 || s.step == -64)
  {
    var down := RayGoesDown(castArc);
    Start(StartLine(py, down), Intersect(px, ApproachLine(py, down), py, iTan), if down then MazeGlobals.TileSize else -MazeGlobals.TileSize)
  }

  /** Where a ray from (p, q) with slope `tab` meets the grid line `line`, along the other axis: q + (line - p) * tab. */
  function Intersect(q: real, line: int, p: real, tab: real): real {
    q + ((line as real - p) * tab)
  }

  /** The start of `castRayForVertHit(castArc)`: the first vertical line, and playerY + (line - playerX) * tan. */
  function VertStart(px: real, py: real, castArc: int, tan: real): (s: Start)
    ensures -TWO31 - 1 <= s.line <= TWO31 && (s.step == 64 || s.step == -64)
  {
    var right := RayGoesRight(castArc);
    Start(StartLine(px, right), Intersect(py, ApproachLine(px, right), px, tan), if right then MazeGlobals.TileSize else -MazeGlobals.TileSize)
  }

  /** The walks start on the line StartLine gives and step one tile in the ray's direction. */
  lemma StartsOnTheFirstLine(px: real, py: real, castArc: int, tab: real)
    ensures var s := HorizStart(px, py, castArc, tab);
      s.line == StartLine(py, RayGoesDown(castArc)) && s.step == (if RayGoesDown(castArc) then 64 else -64)
    ensures var s := VertStart(px, py, castArc, tab);
      s.line == StartLine(px, RayGoesRight(castArc)) && s.step == (if RayGoesRight(castArc) then 64 else -64)
  {
  }

  /** A start a walk over grid m can take. */
  predicate Walkable(m: MapData.MapGrid, s: Start) {
    WalkArgs(m, s.line, s.step)
  }

  /** A hit whose ray runs along the grid lines it looks for: no walk, distance MAX_VALUE, the prototype's indices. */
  function NoWalk(s: Start): HitState {
    HitState(s.line, s.at, 0, 0, 0, false, MaxValue)
  }

  /**
   * The hit a cast from s returns: along an axis there is no walk;
   * otherwise the walk from s, with an undefined hit type, `dv` between
   * intersections, and the distance measured from `origin` and scaled by
   * `inv`.
   */
  function CastFrom(m: MapData.MapGrid, alongAxis: bool, s: Start, dv: real, origin: real, inv: real): HitState
    requires Walkable(m, s)
  {
    if alongAxis then NoWalk(s) else Walk(m, None, s.line, s.at, s.step, dv, origin, inv)
  }

  /**
   * A cast along an axis stays on the map at its start line with distance
   * MAX_VALUE. Any other ends off the map with MAX_VALUE, or on the map at
   * a wall at distance (intersection - origin) * inv.
   */
  lemma CastOutcome(m: MapData.MapGrid, alongAxis: bool, s: Start, dv: real, origin: real, inv: real)
    requires Walkable(m, s)
    ensures var r := CastFrom(m, alongAxis, s, dv, origin, inv);
      (alongAxis ==> !r.offTheMap && r.distToItem == MaxValue && r.gridLine == s.line && r.intersection == s.at)
      && (!alongAxis ==>
            (r.offTheMap && r.distToItem == MaxValue && OffTheMap(m, r.xGridIndex, r.yGridIndex))
            || (!r.offTheMap && MapData.IsWall(m, r.mapPos) && r.distToItem == ScaledDistance(r.intersection, origin, inv)))
  {
    WalkOutcome(m, None, s.line, s.at, s.step, dv, origin, inv);
  }

  /**
   * A cast off the axes ends a whole number of tiles from its start line,
   * one per passable crossing, and at most mapWidth tiles away (the
   * undefined hit type bounds both walks by the width).
   */
  lemma CastLength(m: MapData.MapGrid, alongAxis: bool, s: Start, dv: real, origin: real, inv: real)
    requires Walkable(m, s) && !alongAxis
    ensures var r := CastFrom(m, alongAxis, s, dv, origin, inv);
      var k := WalkSteps(m, None, s.line, s.at, s.step, dv);
      k <= m.mapWidth && r.gridLine == (if s.step > 0 then s.line + 64 * k else s.line - 64 * k)
  {
    WalkLength(m, None, s.line, s.at, s.step, dv, origin, inv);
  }

  /** Every crossing of a cast before the one it stops at is passable: on the map and not a wall. */
  lemma CastPassesOpenTiles(m: MapData.MapGrid, s: Start, dv: real, j: nat)
    requires Walkable(m, s) && j < WalkSteps(m, None, s.line, s.at, s.step, dv)
    ensures var c := Crossing(s.line, s.at, s.step, dv, j);
      Passable(m, None, c.0, c.1) && c.0 == (if s.step > 0 then s.line + 64 * j else s.line - 64 * j)
  {
    WalkCrossings(m, None, s.line, s.at, s.step, dv, j);
    CrossingLine(s.line, s.at, s.step, dv, j);
  }

  /**
   * The hit `castRayForHorizHit(castArc)` returns, given the table entries
   * for castArc. The hit's type is undefined (the constant it is built with
   * lives on another object), so its tile follows the vertical rule.
   */
  function HorizCast(m: MapData.MapGrid, px: real, py: real, castArc: int, iTan: real, xStep: real, iCos: real): HitState
    requires MapData.Bounded(m)
  {
    CastFrom(m, castArc == ANGLE0 || castArc == ANGLE180, HorizStart(px, py, castArc, iTan), xStep, px, iCos)
  }

  /** The hit `castRayForVertHit(castArc)` returns, given the table entries for castArc. */
  function VertCast(m: MapData.MapGrid, px: real, py: real, castArc: int, tan: real, yStep: real, iSin: real): HitState
    requires MapData.Bounded(m)
  {
    CastFrom(m, castArc == ANGLE90 || castArc == ANGLE270, VertStart(px, py, castArc, tan), yStep, py, iSin)
  }

  /** A hit of undefined type takes its tile by the vertical rule: the grid line gives the column. */
  lemma UndefinedHitTypeIsVertical(g: int, v: real)
    ensures Cell(None, g, v) == Cell(Some(VertHit), g, v) == (GridLineIndex(g), IntersectionIndex(v))
  {
  }

  // ---------------------------------------------------------------------
  // Drawing

  /** The table entries the casts and the slices read. */
  datatype Tables = Tables(tan: seq<real>, iTan: seq<real>, iSin: seq<real>, iCos: seq<real>,
                           xStep: seq<real>, yStep: seq<real>, fish: seq<real>)

  /** Everything a frame is drawn from. */
  datatype Scene = Scene(grid: MapData.MapGrid, tables: Tables, texture: seq<Byte>,
                         playerX: real, playerY: real, playerArc: int)

  predicate Drawable(s: Scene) {
    MapData.Bounded(s.grid) && 0 <= s.playerArc < ANGLE360
    && |s.tables.tan| == ANGLE360 + 1 && |s.tables.iTan| == ANGLE360 + 1
    && |s.tables.iSin| == ANGLE360 + 1 && |s.tables.iCos| == ANGLE360 + 1
    && |s.tables.xStep| == ANGLE360 + 1 && |s.tables.yStep| == ANGLE360 + 1
    && |s.tables.fish| == ANGLE60 + 1
  }

  function HorizHitAt(s: Scene, arc: int): HitState
    requires Drawable(s) && 0 <= arc < ANGLE360
  {
    HorizCast(s.grid, s.playerX, s.playerY, arc, s.tables.iTan[arc], s.tables.xStep[arc], s.tables.iCos[arc])
  }

  function VertHitAt(s: Scene, arc: int): HitState
    requires Drawable(s) && 0 <= arc < ANGLE360
  {
    VertCast(s.grid, s.playerX, s.playerY, arc, s.tables.tan[arc], s.tables.yStep[arc], s.tables.iSin[arc])
  }

  /** `~~(ratio * yImage) * srcImageHeight + srcColImage` for row y, where yImage counts the rows of the line from 1. */
  function SourcePixel(top: int, lineHeight: real, srcSize: int, srcCol: int, y: int): int {
    SampledPixel(Div(srcSize as real, lineHeight), y - top + 1, srcSize, srcCol)
  }

  /** The texel `drawVertLine` samples for the yImage-th row of a line at the given ratio. */
  function SampledPixel(ratio: real, yImage: int, srcSize: int, srcCol: int): int {
    Tilde(ratio * yImage as real) * srcSize + srcCol
  }

  /** The texel's alpha is not 0; a texel past the end of the texture reads as undefined, which is not 0 either. */
  predicate NotTransparent(tex: seq<Byte>, srcPixel: int) {
    !(0 <= srcPixel * 4 + 3 < |tex| && tex[srcPixel * 4 + 3] == 0)
  }

  /**
   * Row y of a vertical line is drawn: it is one of the line's rows, its
   * pixel is on the 320 x 200 plane, and the texel it samples is inside the
   * square texture and not transparent.
   */
  predicate RowDrawn(tex: seq<Byte>, col: int, top: int, lineHeight: real, srcSize: int, srcCol: int, y: int) {
    top <= y && (y as real) < (top as real) + lineHeight
    && 0 <= y * MazeGlobals.ProjectionPlaneWidth + col < MazeGlobals.ProjectionPlaneWidthTimesHeight
    && 0 <= SourcePixel(top, lineHeight, srcSize, srcCol, y) < srcSize * srcSize
    && NotTransparent(tex, SourcePixel(top, lineHeight, srcSize, srcCol, y))
  }

  /** Byte k of buffer d once the drawn rows of the line below `rows` are written: the texel's colour with alpha 255. */
  function LineByte(d: seq<Byte>, tex: seq<Byte>, col: int, top: int, lineHeight: real, srcSize: int, srcCol: int,
                    rows: int, k: int): Byte
    requires 0 <= k < |d|
  {
    var p := k / 4;
    var y := (p - col) / 320;
    if (p - col) % 320 == 0 && y < rows && RowDrawn(tex, col, top, lineHeight, srcSize, srcCol, y) then
      (if k % 4 == 3 then 255 else ByteAt(tex, SourcePixel(top, lineHeight, srcSize, srcCol, y) * 4 + k % 4))
    else d[k]
  }

  /** `drawVertLine(col, topOfLine, lineHeight, texture, srcSize, srcCol)` on the buffer d. */
  function VertLine(d: seq<Byte>, tex: seq<Byte>, col: int, top: int, lineHeight: real, srcSize: int, srcCol: int): (r: seq<Byte>)
    ensures |r| == |d|
  {
    seq(|d|, k requires 0 <= k < |d| => LineByte(d, tex, col, top, lineHeight, srcSize, srcCol, ((top as real) + lineHeight).Floor + 1, k))
  }

  /** The byte of channel c of pixel (col, row) of a 320-pixel-wide buffer. */
  function ByteIndex(col: int, row: int, c: int): int {
    (col + row * MazeGlobals.ProjectionPlaneWidth) * 4 + c
  }

  /**
   * Pixel (col, row) of a vertical line: where the row is drawn it gets the
   * sampled texel's colour and alpha 0xff; everywhere else the buffer keeps
   * its byte, and so does every pixel of another column.
   */
  lemma VertLinePixel(d: seq<Byte>, tex: seq<Byte>, col: int, top: int, lineHeight: real, srcSize: int, srcCol: int,
                      x: int, row: int, c: int)
    requires |d| == 256000 && 0 <= col < 320 && 0 <= x < 320 && 0 <= row < 200 && 0 <= c < 4
    ensures var k := ByteIndex(x, row, c);
      VertLine(d, tex, col, top, lineHeight, srcSize, srcCol)[k]
      == if x == col && RowDrawn(tex, col, top, lineHeight, srcSize, srcCol, row) then
           (if c == 3 then 255 else ByteAt(tex, SourcePixel(top, lineHeight, srcSize, srcCol, row) * 4 + c))
         else d[k]
  {
    var k := ByteIndex(x, row, c);
    var rows := ((top as real) + lineHeight).Floor + 1;
    if x == col {
      LineByteOwnColumn(d, tex, col, top, lineHeight, srcSize, srcCol, rows, row, c);
      if RowDrawn(tex, col, top, lineHeight, srcSize, srcCol, row) {
        RowsBelowTheEnd(top, lineHeight, row);
      }
    } else {
      LineByteOtherColumn(d, tex, col, top, lineHeight, srcSize, srcCol, rows, x, row, c);
    }
  }

  /** A row of the line lies below Floor(top + lineHeight) + 1. */
  lemma RowsBelowTheEnd(top: int, lineHeight: real, y: int)
    requires (y as real) < (top as real) + lineHeight
    ensures y < ((top as real) + lineHeight).Floor + 1
  {
  }

  /** LineByte at a byte of the line's own column, in row y. */
  lemma LineByteOwnColumn(d: seq<Byte>, tex: seq<Byte>, col: int, top: int, lineHeight: real, srcSize: int, srcCol: int,
                          rows: int, y: int, c: int)
    requires |d| == 256000 && 0 <= col < 320 && 0 <= y < 200 && 0 <= c < 4
    ensures var k := ByteIndex(col, y, c);
      LineByte(d, tex, col, top, lineHeight, srcSize, srcCol, rows, k)
      == if y < rows && RowDrawn(tex, col, top, lineHeight, srcSize, srcCol, y) then
           (if c == 3 then 255 else ByteAt(tex, SourcePixel(top, lineHeight, srcSize, srcCol, y) * 4 + c))
         else d[k]
  {
    var k := ByteIndex(col, y, c);
    PixelOffset(320, col, y, c);
    var p := k / 4;
    assert p - col == y * 320;
    assert (p - col) / 320 == y && (p - col) % 320 == 0;
  }

  /** LineByte at a byte of another column keeps the buffer's byte. */
  lemma LineByteOtherColumn(d: seq<Byte>, tex: seq<Byte>, col: int, top: int, lineHeight: real, srcSize: int, srcCol: int,
                            rows: int, x: int, y: int, c: int)
    requires |d| == 256000 && 0 <= col < 320 && 0 <= x < 320 && x != col && 0 <= y < 200 && 0 <= c < 4
    ensures var k := ByteIndex(x, y, c);
      LineByte(d, tex, col, top, lineHeight, srcSize, srcCol, rows, k) == d[k]
  {
    var k := ByteIndex(x, y, c);
    PixelOffset(320, x, y, c);
    var p := k / 4;
    assert p == x + y * 320;
    assert (p - col) % 320 != 0;
  }

  /** The changes of a line to byte k depend on nothing in the buffer but byte k. */
  lemma VertLineLocal(d1: seq<Byte>, d2: seq<Byte>, tex: seq<Byte>, col: int, top: int, lineHeight: real,
                      srcSize: int, srcCol: int, k: int)
    requires |d1| == |d2| && 0 <= k < |d1| && d1[k] == d2[k]
    ensures VertLine(d1, tex, col, top, lineHeight, srcSize, srcCol)[k] == VertLine(d2, tex, col, top, lineHeight, srcSize, srcCol)[k]
  {
  }

  /** `renderOneFrame`'s correction of the chosen hit: a distance of zero or less (-0.0 among them) becomes 1.0. */
  function CorrectedDistance(hit: HitState): (r: HitState)
    ensures r.distToItem > 0.0
    ensures hit.distToItem > 0.0 ==> r == hit
    ensures r == hit.(distToItem := r.distToItem)
  {
    if hit.distToItem <= 0.0 then hit.(distToItem := 1.0) else hit
  }

  /**
   * The texture column a slice samples: one left of the hit's offset in
   * its tile, but not below 0. With `flipped` it is mirrored, as the code
   * intends for bottom and left faces.
   */
  function LeftMostOfSlice(sliceOfWall: int, flipped: bool): (r: int)
    ensures 0 <= sliceOfWall < 64 ==> 0 <= r < 64
    ensures !flipped && -64 < sliceOfWall < 64 ==> 0 <= r < 63
    ensures !flipped ==> r == (if sliceOfWall > 1 then sliceOfWall - 1 else 0)
  {
    if !flipped then (if sliceOfWall - SliceWidth > 0 then sliceOfWall - SliceWidth else 0)
    else MazeGlobals.TileSize - (if sliceOfWall + SliceWidth <= MazeGlobals.TileSize then sliceOfWall + SliceWidth else MazeGlobals.TileSize)
  }

  /**
   * `drawWallSlice(castColumn, itemHit)` on the buffer d: nothing for a hit
   * off the map; otherwise a vertical line centred on the plane's middle
   * row, 64 * (277 / corrected distance) high, sampling texture column
   * LeftMostOfSlice. The second half of the face test before it compares
   * two properties that no hit has, undefined with undefined, so the test
   * always holds and the slice is never flipped.
   */
  function WallSlice(d: seq<Byte>, tex: seq<Byte>, castColumn: int, hit: HitState, fish: real): (r: seq<Byte>)
    ensures |r| == |d|
    ensures hit.offTheMap ==> r == d
  {
    if hit.offTheMap then d
    else
      var sliceOfWall := Rem(Tilde(hit.intersection), MazeGlobals.TileSize);
      var projectedWallHeight := ProjectedWallHeight(Div(hit.distToItem, fish));
      VertLine(d, tex, castColumn, TopOfWall(projectedWallHeight), projectedWallHeight, MazeGlobals.TileSize, LeftMostOfSlice(sliceOfWall, false))
  }

  /** `WALL_HEIGHT * (PLAYER_DISTANCE_TO_THE_PROJECTION_PLANE / dist)`: the height on the plane of a wall at distance dist. */
  function ProjectedWallHeight(dist: real): real {
    (WallHeight as real) * Div(PlayerDistanceToTheProjectionPlane as real, dist)
  }

  /** The top row of a slice of height h whose bottom row is h / 2 below the plane's middle row. */
  function TopOfWall(h: real): int {
    MazeGlobals.ProjectionPlaneHeight - (ProjectionPlaneYCenter + Tilde(h * 0.5))
  }

  /** The texture column a slice of a hit samples lies in [0, 62], one left of the hit's offset in its tile. */
  lemma SliceColumn(hit: HitState)
    ensures var s := Rem(Tilde(hit.intersection), 64);
      -64 < s < 64 && 0 <= LeftMostOfSlice(s, false) < 63
      && (0 <= Tilde(hit.intersection) ==> LeftMostOfSlice(s, false) == if s > 1 then s - 1 else 0)
  {
  }

  /**
   * Column c of a frame drawn over d: both hits off the map leave it
   * alone; otherwise the nearer hit, its distance corrected, is drawn.
   */
  function ColumnImage(d: seq<Byte>, s: Scene, c: int): (r: seq<Byte>)
    requires Drawable(s) && 0 <= c < 320
    ensures |r| == |d|
  {
    AngleValues();
    var arc := ColumnArc(s.playerArc, c);
    var h := HorizHitAt(s, arc);
    var v := VertHitAt(s, arc);
    if v.offTheMap && h.offTheMap then d
    else WallSlice(d, s.texture, c, CorrectedDistance(DetermineClosestHit(h, v)), s.tables.fish[c])
  }

  /** The first n columns of a frame drawn over bg, left to right. */
  function FrameImage(bg: seq<Byte>, s: Scene, n: int): (r: seq<Byte>)
    requires Drawable(s) && 0 <= n <= 320
    ensures |r| == |bg|
    decreases n
  {
    if n == 0 then bg else ColumnImage(FrameImage(bg, s, n - 1), s, n - 1)
  }

  /** A column's image changes only its own column, and its change to a byte depends on nothing else in the buffer. */
  lemma ColumnImageLocal(d1: seq<Byte>, d2: seq<Byte>, s: Scene, c: int, x: int, row: int, ch: int)
    requires Drawable(s) && 0 <= c < 320 && |d1| == |d2| == 256000
    requires 0 <= x < 320 && 0 <= row < 200 && 0 <= ch < 4
    ensures var k := ByteIndex(x, row, ch);
      (x != c ==> ColumnImage(d1, s, c)[k] == d1[k])
      && (d1[k] == d2[k] ==> ColumnImage(d1, s, c)[k] == ColumnImage(d2, s, c)[k])
  {
    AngleValues();
    var arc := ColumnArc(s.playerArc, c);
    var h := HorizHitAt(s, arc);
    var v := VertHitAt(s, arc);
    if !(v.offTheMap && h.offTheMap) {
      WallSliceLocal(d1, d2, s.texture, c, CorrectedDistance(DetermineClosestHit(h, v)), s.tables.fish[c], x, row, ch);
    }
  }

  /** A slice changes only its own column, and its change to a byte depends on nothing else in the buffer. */
  lemma WallSliceLocal(d1: seq<Byte>, d2: seq<Byte>, tex: seq<Byte>, c: int, hit: HitState, fish: real, x: int, row: int, ch: int)
    requires 0 <= c < 320 && |d1| == |d2| == 256000
    requires 0 <= x < 320 && 0 <= row < 200 && 0 <= ch < 4
    ensures var k := ByteIndex(x, row, ch);
      (x != c ==> WallSlice(d1, tex, c, hit, fish)[k] == d1[k])
      && (d1[k] == d2[k] ==> WallSlice(d1, tex, c, hit, fish)[k] == WallSlice(d2, tex, c, hit, fish)[k])
  {
    var k := ByteIndex(x, row, ch);
    PixelOffset(320, x, row, ch);
    if !hit.offTheMap {
      var sliceOfWall := Rem(Tilde(hit.intersection), MazeGlobals.TileSize);
      var projectedWallHeight := ProjectedWallHeight(Div(hit.distToItem, fish));
      var topOfWall := TopOfWall(projectedWallHeight);
      var srcCol := LeftMostOfSlice(sliceOfWall, false);
      VertLinePixel(d1, tex, c, topOfWall, projectedWallHeight, 64, srcCol, x, row, ch);
      if d1[k] == d2[k] {
        VertLineLocal(d1, d2, tex, c, topOfWall, projectedWallHeight, 64, srcCol, k);
      }
    }
  }


  /**
   * The columns of a frame do not interfere: every byte of column x of the
   * frame is the byte column x's own slice draws over the background, and
   * columns not yet drawn still show the background.
   */
  lemma {:induction false} FrameColumns(bg: seq<Byte>, s: Scene, n: int, x: int, row: int, ch: int)
    requires Drawable(s) && |bg| == 256000 && 0 <= n <= 320
    requires 0 <= x < 320 && 0 <= row < 200 && 0 <= ch < 4
    ensures var k := ByteIndex(x, row, ch);
      FrameImage(bg, s, n)[k] == if x < n then ColumnImage(bg, s, x)[k] else bg[k]
    decreases n
  {
    if n > 0 {
      FrameColumns(bg, s, n - 1, x, row, ch);
      ColumnImageLocal(FrameImage(bg, s, n - 1), bg, s, n - 1, x, row, ch);
    }
  }

  // ---------------------------------------------------------------------
  // Movement

  /** The map position `attemptMove` checks for a point: its tile, by `>> TILE_SIZE_SHIFT` on each coordinate. */
  function MoveIndex(m: MapData.MapGrid, x: real, y: real): int {
    MapData.ConvertPointToMapPos(m, SarReal(x, 6), SarReal(y, 6))
  }

  /** The test of the first two attempts: the position is below `mapHeight << mapWidthShift` and is not a wall. */
  predicate CanMoveTo(m: MapData.MapGrid, x: real, y: real) {
    MoveIndex(m, x, y) < Shl(m.mapHeight, m.mapWidthShift) && !MapData.IsWall(m, MoveIndex(m, x, y))
  }

  /**
   * The test of the third attempt. It bounds the position by
   * `getMapHeight << mapWidthShift`, a property the grid does not have;
   * the shift reads undefined as 0.
   */
  predicate CanMoveToThird(m: MapData.MapGrid, x: real, y: real) {
    MoveIndex(m, x, y) < Shl(0, m.mapWidthShift) && !MapData.IsWall(m, MoveIndex(m, x, y))
  }

  /** The third attempt never succeeds: a position below 0 is outside the grid, so it counts as a wall. */
  lemma ThirdAttemptNeverMoves(m: MapData.MapGrid, x: real, y: real)
    ensures !CanMoveToThird(m, x, y)
  {
    assert Shl(0, m.mapWidthShift) == 0;
  }

  /**
   * Where `attemptMove(nx, ny)` leaves a player at (px, py): the new point
   * if it can be entered, else the new x with the old y if that can, else
   * where the player was. The player only ever moves onto a tile that
   * passes the test.
   */
  function AttemptedMove(m: MapData.MapGrid, px: real, py: real, nx: real, ny: real): (r: (real, real))
    ensures CanMoveTo(m, nx, ny) ==> r == (nx, ny)
    ensures !CanMoveTo(m, nx, ny) && CanMoveTo(m, nx, py) ==> r == (nx, py)
    ensures !CanMoveTo(m, nx, ny) && !CanMoveTo(m, nx, py) ==> r == (px, py)
    ensures r == (px, py) || CanMoveTo(m, r.0, r.1)
  {
    ThirdAttemptNeverMoves(m, px, ny);
    if CanMoveTo(m, nx, ny) then (nx, ny)
    else if CanMoveTo(m, nx, py) then (nx, py)
    else if CanMoveToThird(m, px, ny) then (px, ny)
    else (px, py)
  }

  /** A player on a tile that passes the test stays on one, whatever move is attempted. */
  lemma MovesStayOnOpenTiles(m: MapData.MapGrid, px: real, py: real, nx: real, ny: real)
    requires CanMoveTo(m, px, py)
    ensures var r := AttemptedMove(m, px, py, nx, ny); CanMoveTo(m, r.0, r.1)
  {
  }

  class Maze {
    const mapData: MapData.MapGrid
    const imageData: ImageData
    const tmpImageData: ImageData
    const background: Background.Background
    const tables: TrigTables
    var playerX: real
    var playerY: real
    var playerArc: int
    var playerXDir: real
    var playerYDir: real

    /** Tables of the right sizes, a 320 x 200 drawing buffer of its own, a bounded grid, a heading within one turn. */
    ghost predicate Valid()
      reads this, tables, background
    {
      tables.Valid() && background.Valid() && MapData.Bounded(mapData)
      && tmpImageData.width == 320 && tmpImageData.height == 200 && tmpImageData.data.Length == 256000
      && tmpImageData.data != background.memPixels.data && tmpImageData.data != imageData.data
      && 0 <= playerArc < ANGLE360
    }

    /** What the next frame is drawn from. */
    ghost function CurrentScene(): Scene
      reads this, tables, tables.tanTable, tables.iTanTable, tables.iSinTable, tables.iCosTable
      reads tables.xStepTable, tables.yStepTable, tables.fishTable, imageData.data
    {
      Scene(mapData, Tables(tables.tanTable[..], tables.iTanTable[..], tables.iSinTable[..], tables.iCosTable[..],
                            tables.xStepTable[..], tables.yStepTable[..], tables.fishTable[..]),
            imageData.data[..], playerX, playerY, playerArc)
    }

    lemma ValidSceneIsDrawable()
      requires Valid()
      ensures Drawable(CurrentScene())
    {
    }

    /**
     * `new Maze(ctx, mapData, imageData)`: the tables, the background and an
     * all-zero drawing buffer; the player at (80, 224) facing ANGLE0.
     */
    constructor (host: MathHost, mapData: MapData.MapGrid, imageData: ImageData)
      requires MapData.Bounded(mapData)
      ensures Valid()
      ensures this.mapData == mapData && this.imageData == imageData
      ensures playerX == 80.0 && playerY == 224.0 && playerArc == 0
      ensures playerXDir == tables.cosTable[0] && playerYDir == tables.sinTable[0]
      ensures fresh(tables) && fresh(background) && fresh(tmpImageData) && fresh(tmpImageData.data)
      ensures forall k :: 0 <= k < 256000 ==> tmpImageData.data[k] == 0
    {
      AngleValues();
      this.mapData := mapData;
      this.imageData := imageData;
      var bg := new Background.Background();
      background := bg;
      var t := new TrigTables(host);
      tables := t;
      playerX, playerY, playerArc := 80.0, 224.0, 0;
      var tmp := new ImageData(MazeGlobals.ProjectionPlaneWidth, MazeGlobals.ProjectionPlaneHeight);
      tmpImageData := tmp;
      playerXDir := t.cosTable[0];
      playerYDir := t.sinTable[0];
    }

    /** `setPixel(x, y, r, g, b)`: the four bytes at (x + y * 320) * 4 get r, g, b clamped and alpha 255. */
    method SetPixel(x: int, y: int, r: Option<int>, g: Option<int>, b: Option<int>)
      requires Valid()
      modifies tmpImageData.data
      ensures var i := (x + y * 320) * 4;
        forall k :: 0 <= k < 256000 ==>
          tmpImageData.data[k] == (if k == i then ClampByte(r) else if k == i + 1 then ClampByte(g)
                                   else if k == i + 2 then ClampByte(b) else if k == i + 3 then 255
                                   else old(tmpImageData.data[k]))
    {
      var index := (x + y * tmpImageData.width) * 4;
      StorePixel(tmpImageData.data, index, ClampByte(r), ClampByte(g), ClampByte(b), 0xff);
    }

    /** `setPlayerPos()`: the heading's direction from the cosine and sine tables. */
    method SetPlayerPos()
      requires Valid()
      modifies this
      ensures Valid()
      ensures playerXDir == tables.cosTable[playerArc] && playerYDir == tables.sinTable[playerArc]
      ensures playerX == old(playerX) && playerY == old(playerY) && playerArc == old(playerArc)
    {
      AngleValues();
      playerXDir := tables.cosTable[playerArc];
      playerYDir := tables.sinTable[playerArc];
    }

    /** `rotateLeft()`: the heading turns by ANGLE10 to the left, and the direction follows. */
    method RotateLeft()
      requires Valid()
      modifies this
      ensures Valid()
      ensures playerArc == TurnLeft(old(playerArc))
      ensures playerXDir == tables.cosTable[playerArc] && playerYDir == tables.sinTable[playerArc]
      ensures playerX == old(playerX) && playerY == old(playerY)
    {
      AngleValues();
      playerArc := playerArc - ANGLE10;
      if playerArc < ANGLE0 {
        playerArc := playerArc + ANGLE360;
      }
      SetPlayerPos();
    }

    /** `rotateRight()`: the heading turns by ANGLE10 to the right, and the direction follows. */
    method RotateRight()
      requires Valid()
      modifies this
      ensures Valid()
      ensures playerArc == TurnRight(old(playerArc))
      ensures playerXDir == tables.cosTable[playerArc] && playerYDir == tables.sinTable[playerArc]
      ensures playerX == old(playerX) && playerY == old(playerY)
    {
      AngleValues();
      playerArc := playerArc + ANGLE10;
      if playerArc >= ANGLE360 {
        playerArc := playerArc - ANGLE360;
      }
      SetPlayerPos();
    }

    /** `attemptMove(newPlayerX, newPlayerY)`: the player ends where AttemptedMove says. */
    method AttemptMove(newPlayerX: real, newPlayerY: real)
      requires Valid()
      modifies this
      ensures Valid()
      ensures (playerX, playerY) == AttemptedMove(mapData, old(playerX), old(playerY), newPlayerX, newPlayerY)
      ensures playerArc == old(playerArc) && playerXDir == old(playerXDir) && playerYDir == old(playerYDir)
    {
      var xGridIndex := SarReal(newPlayerX, 6);
      var yGridIndex := SarReal(newPlayerY, 6);
      var mapIndex := MapData.ConvertPointToMapPos(mapData, xGridIndex, yGridIndex);
      if mapIndex < Shl(mapData.mapHeight, mapData.mapWidthShift) && !MapData.IsWall(mapData, mapIndex) {
        playerX := newPlayerX;
        playerY := newPlayerY;
        return;
      }

      xGridIndex := SarReal(newPlayerX, 6);
      yGridIndex := SarReal(playerY, 6);
      mapIndex := MapData.ConvertPointToMapPos(mapData, xGridIndex, yGridIndex);
      if mapIndex < Shl(mapData.mapHeight, mapData.mapWidthShift) && !MapData.IsWall(mapData, mapIndex) {
        playerX := newPlayerX;
        return;
      }

      // The bound is `getMapHeight << mapWidthShift`; `getMapHeight` is undefined and shifts as 0.
      xGridIndex := SarReal(playerX, 6);
      yGridIndex := SarReal(newPlayerY, 6);
      mapIndex := MapData.ConvertPointToMapPos(mapData, xGridIndex, yGridIndex);
      // This test never passes (ThirdAttemptNeverMoves): a negative position is
      // a wall, so the assignment below never runs.
      if mapIndex < Shl(0, mapData.mapWidthShift) && !MapData.IsWall(mapData, mapIndex) {
        playerY := newPlayerY;
      }
    }

    /** `moveForward()`: an attempt to step PlayerSpeed along the heading's direction. */
    method MoveForward()
      requires Valid()
      modifies this
      ensures Valid()
      ensures (playerX, playerY) == AttemptedMove(mapData, old(playerX), old(playerY),
                                                  old(playerX) + old(playerXDir) * PlayerSpeed as real,
                                                  old(playerY) + old(playerYDir) * PlayerSpeed as real)
      ensures playerArc == old(playerArc) && playerXDir == old(playerXDir) && playerYDir == old(playerYDir)
    {
      var newPlayerX := playerX + playerXDir * PlayerSpeed as real;
      var newPlayerY := playerY + playerYDir * PlayerSpeed as real;
      AttemptMove(newPlayerX, newPlayerY);
    }

    /** `moveBackward()`: an attempt to step PlayerSpeed against the heading's direction. */
    method MoveBackward()
      requires Valid()
      modifies this
      ensures Valid()
      ensures (playerX, playerY) == AttemptedMove(mapData, old(playerX), old(playerY),
                                                  old(playerX) - old(playerXDir) * PlayerSpeed as real,
                                                  old(playerY) - old(playerYDir) * PlayerSpeed as real)
      ensures playerArc == old(playerArc) && playerXDir == old(playerXDir) && playerYDir == old(playerYDir)
    {
      var newPlayerX := playerX - playerXDir * PlayerSpeed as real;
      var newPlayerY := playerY - playerYDir * PlayerSpeed as real;
      AttemptMove(newPlayerX, newPlayerY);
    }

    /**
     * The `while (true)` loop of both casts: at each crossing, find the
     * tile; stop off the map, or at a wall with the distance; otherwise
     * step to the next grid line.
     */
    static method WalkToWall(mapData: MapData.MapGrid, hit: WallHitItem, dg: int, dv: real, origin: real, inv: real)
      requires WalkArgs(mapData, hit.gridLine, dg) && !hit.offTheMap
      modifies hit
      ensures hit.State() == Walk(mapData, old(hit.hitType), old(hit.gridLine), old(hit.intersection), dg, dv, origin, inv)
      ensures hit.hitType == old(hit.hitType) && hit.castArc == old(hit.castArc)
    {
      ghost var target := Walk(mapData, hit.hitType, hit.gridLine, hit.intersection, dg, dv, origin, inv);
      while true
        invariant WalkArgs(mapData, hit.gridLine, dg) && !hit.offTheMap
        invariant hit.hitType == old(hit.hitType) && hit.castArc == old(hit.castArc)
        invariant Walk(mapData, hit.hitType, hit.gridLine, hit.intersection, dg, dv, origin, inv) == target
        decreases if dg > 0 then 64 * LineBound(mapData, hit.hitType) + 64 - hit.gridLine else hit.gridLine + 64
      {
        var stop := WalkStep(mapData, hit, dg, dv, origin, inv);
        if stop {
          break;
        }
      }
    }

    /** One pass of the loop, stated against the walk: it stops with the walk's hit, or goes on to a crossing with the same walk. */
    static method WalkStep(mapData: MapData.MapGrid, hit: WallHitItem, dg: int, dv: real, origin: real, inv: real)
      returns (stop: bool)
      requires WalkArgs(mapData, hit.gridLine, dg) && !hit.offTheMap
      modifies hit
      ensures hit.hitType == old(hit.hitType) && hit.castArc == old(hit.castArc)
      ensures stop ==> hit.State() == Walk(mapData, hit.hitType, old(hit.gridLine), old(hit.intersection), dg, dv, origin, inv)
      ensures !stop ==> WalkArgs(mapData, hit.gridLine, dg) && !hit.offTheMap
                        && Walk(mapData, hit.hitType, hit.gridLine, hit.intersection, dg, dv, origin, inv)
                           == Walk(mapData, hit.hitType, old(hit.gridLine), old(hit.intersection), dg, dv, origin, inv)
                        && hit.gridLine == old(hit.gridLine) + dg
                        && 0 <= old(hit.gridLine) < 64 * LineBound(mapData, hit.hitType)
    {
      ghost var g, v := hit.gridLine, hit.intersection;
      stop := ProbeCrossing(mapData, hit, dg, dv, origin, inv);
      WalkMoves(mapData, hit.hitType, g, v, dg, dv, origin, inv, stop, hit.State());
    }

    /**
     * One pass of the loop: find the crossing's tile; stop off the map, or
     * at a wall with the distance; otherwise move to the next grid line.
     */
    static method ProbeCrossing(mapData: MapData.MapGrid, hit: WallHitItem, dg: int, dv: real, origin: real, inv: real)
      returns (stop: bool)
      requires !hit.offTheMap
      modifies hit
      ensures stop <==> !Passable(mapData, hit.hitType, old(hit.gridLine), old(hit.intersection))
      ensures stop ==> hit.State() == Stopped(mapData, hit.hitType, old(hit.gridLine), old(hit.intersection), origin, inv)
      ensures !stop ==> hit.gridLine == old(hit.gridLine) + dg && hit.intersection == old(hit.intersection) + dv
                        && !hit.offTheMap
      ensures hit.hitType == old(hit.hitType) && hit.castArc == old(hit.castArc)
    {
      ghost var g, v := hit.gridLine, hit.intersection;
      var _ := hit.CalcAndSetMapPos(mapData);
      var _ := hit.CalcAndSetOffTheMap(mapData);
      CrossingFacts(mapData, hit.hitType, g, v, origin, inv, hit.xGridIndex, hit.yGridIndex, hit.mapPos);
      if hit.offTheMap {
        return true;
      } else if MapData.IsWall(mapData, hit.mapPos) {
        hit.distToItem := ScaledDistance(hit.intersection, origin, inv);
        return true;
      }
      hit.intersection := hit.intersection + dv;
      hit.gridLine := hit.gridLine + dg;
      return false;
    }

    /** The first part of `castRayForHorizHit(castArc)`: the first horizontal line, its intersection and the step. */
    static method FirstHorizIntersection(px: real, py: real, castArc: int, iTan: real)
      returns (ay: int, ax: real, distToNextHorizontalGrid: int)
      ensures Start(ay, ax, distToNextHorizontalGrid) == HorizStart(px, py, castArc, iTan)
    {
      AngleValues();
      if castArc > ANGLE0 && castArc < ANGLE180 {
        ay := Shl(SarReal(py, MazeGlobals.TileSizeShift), MazeGlobals.TileSizeShift) + MazeGlobals.TileSize;
        assert ay == ApproachLine(py, RayGoesDown(castArc));
        ax := Intersect(px, ay, py, iTan);
        distToNextHorizontalGrid := MazeGlobals.TileSize;
      } else {
        ay := Shl(SarReal(py, MazeGlobals.TileSizeShift), MazeGlobals.TileSizeShift);
        assert ay == ApproachLine(py, RayGoesDown(castArc));
        ax := Intersect(px, ay, py, iTan);
        distToNextHorizontalGrid := -MazeGlobals.TileSize;
        ay := ay - 1;
      }
    }

    /** The first part of `castRayForVertHit(castArc)`: the first vertical line, its intersection and the step. */
    static method FirstVertIntersection(px: real, py: real, castArc: int, tan: real)
      returns (ax: int, ay: real, distToNextVerticalGrid: int)
      ensures Start(ax, ay, distToNextVerticalGrid) == VertStart(px, py, castArc, tan)
    {
      AngleValues();
      if castArc < ANGLE90 || castArc > ANGLE270 {
        ax := Shl(SarReal(px, MazeGlobals.TileSizeShift), MazeGlobals.TileSizeShift) + MazeGlobals.TileSize;
        assert ax == ApproachLine(px, RayGoesRight(castArc));
        ay := Intersect(py, ax, px, tan);
        distToNextVerticalGrid := MazeGlobals.TileSize;
      } else {
        ax := Shl(SarReal(px, MazeGlobals.TileSizeShift), MazeGlobals.TileSizeShift);
        assert ax == ApproachLine(px, RayGoesRight(castArc));
        ay := Intersect(py, ax, px, tan);
        distToNextVerticalGrid := -MazeGlobals.TileSize;
        ax := ax - 1;
      }
    }

    /**
     * The cast both ray methods finish with: a fresh hit of undefined type
     * at the start, which along an axis only gets distance MAX_VALUE, and
     * otherwise walks to the wall.
     */
    method CastFromStart(castArc: int, alongAxis: bool, st: Start, dv: real, origin: real, inv: real) returns (hit: WallHitItem)
      requires Valid() && Walkable(mapData, st)
      ensures fresh(hit) && hit.hitType == None && hit.castArc == castArc
      ensures hit.State() == CastFrom(mapData, alongAxis, st, dv, origin, inv)
    {
      hit := new WallHitItem(None, st.line, st.at, castArc);
      if alongAxis {
        hit.distToItem := MaxValue;
      } else {
        WalkToWall(mapData, hit, st.step, dv, origin, inv);
      }
    }

    /** `castRayForHorizHit(castArc)`: the hit HorizCast describes, from a fresh hit object. */
    method CastRayForHorizHit(castArc: int) returns (horizItemHit: WallHitItem)
      requires Valid() && 0 <= castArc < ANGLE360
      ensures fresh(horizItemHit) && horizItemHit.hitType == None && horizItemHit.castArc == castArc
      ensures horizItemHit.State() == HorizHitAt(CurrentScene(), castArc)
    {
      var ay, ax, distToNextHorizontalGrid := FirstHorizIntersection(playerX, playerY, castArc, tables.iTanTable[castArc]);
      // The hit type passed is `WallHitItem.prototype.HORIZ_HIT`, which is undefined.
      horizItemHit := CastFromStart(castArc, castArc == ANGLE0 || castArc == ANGLE180, Start(ay, ax, distToNextHorizontalGrid),
                                    tables.xStepTable[castArc], playerX, tables.iCosTable[castArc]);
    }

    /** `castRayForVertHit(castArc)`: the hit VertCast describes, from a fresh hit object. */
    method CastRayForVertHit(castArc: int) returns (vertItemHit: WallHitItem)
      requires Valid() && 0 <= castArc < ANGLE360
      ensures fresh(vertItemHit) && vertItemHit.hitType == None && vertItemHit.castArc == castArc
      ensures vertItemHit.State() == VertHitAt(CurrentScene(), castArc)
    {
      var ax, ay, distToNextVerticalGrid := FirstVertIntersection(playerX, playerY, castArc, tables.tanTable[castArc]);
      // The hit type passed is `WallHitItem.prototype.VERT_HIT`, which is undefined.
      vertItemHit := CastFromStart(castArc, castArc == ANGLE90 || castArc == ANGLE270, Start(ax, ay, distToNextVerticalGrid),
                                   tables.yStepTable[castArc], playerY, tables.iSinTable[castArc]);
    }

    /** `drawVertLine(col, topOfLine, lineHeight, imageData, srcImageHeight, srcColImage)`: the buffer becomes VertLine of it. */
    method DrawVertLine(col: int, topOfLine: int, lineHeight: real, imageData: ImageData, srcImageHeight: int, srcColImage: int)
      requires Valid() && imageData.data != tmpImageData.data
      modifies tmpImageData.data
      ensures tmpImageData.data[..] == VertLine(old(tmpImageData.data[..]), imageData.data[..], col, topOfLine, lineHeight,
                                                srcImageHeight, srcColImage)
    {
      ghost var d0 := tmpImageData.data[..];
      ghost var tex := imageData.data[..];
      var ratio := Div(srcImageHeight as real, lineHeight);
      var yImage := 0;
      var botOfLine := topOfLine as real + lineHeight;
      var y := topOfLine;
      while (y as real) < botOfLine
        invariant topOfLine <= y && yImage == y - topOfLine
        invariant imageData.data[..] == tex
        invariant forall k :: 0 <= k < 256000 ==>
          tmpImageData.data[k] == LineByte(d0, tex, col, topOfLine, lineHeight, srcImageHeight, srcColImage, y, k)
        decreases botOfLine.Floor + 1 - y
      {
        yImage := yImage + 1;
        DrawLineRow(col, y, topOfLine, lineHeight, ratio, yImage, imageData, srcImageHeight, srcColImage);
        forall k | 0 <= k < 256000
          ensures tmpImageData.data[k] == LineByte(d0, tex, col, topOfLine, lineHeight, srcImageHeight, srcColImage, y + 1, k)
        {
          LineByteNextRow(d0, tex, col, topOfLine, lineHeight, srcImageHeight, srcColImage, y, k);
        }
        y := y + 1;
      }
      forall k | 0 <= k < 256000
        ensures tmpImageData.data[k] == VertLine(d0, tex, col, topOfLine, lineHeight, srcImageHeight, srcColImage)[k]
      {
        LineByteAllRows(d0, tex, col, topOfLine, lineHeight, srcImageHeight, srcColImage, y, k);
      }
    }

    /** One pass of the loop of `drawVertLine`: row y, the yImage-th row of the line, gets its texel where RowDrawn says so. */
    method DrawLineRow(col: int, y: int, topOfLine: int, lineHeight: real, ratio: real, yImage: int,
                       imageData: ImageData, srcImageHeight: int, srcColImage: int)
      requires Valid() && imageData.data != tmpImageData.data
      requires topOfLine <= y && (y as real) < (topOfLine as real) + lineHeight
      requires ratio == Div(srcImageHeight as real, lineHeight) && yImage == y - topOfLine + 1
      modifies tmpImageData.data
      ensures forall k :: 0 <= k < 256000 ==>
        tmpImageData.data[k]
        == if k / 4 == y * 320 + col && RowDrawn(imageData.data[..], col, topOfLine, lineHeight, srcImageHeight, srcColImage, y) then
             (if k % 4 == 3 then 255
              else ByteAt(imageData.data[..], SourcePixel(topOfLine, lineHeight, srcImageHeight, srcColImage, y) * 4 + k % 4))
           else old(tmpImageData.data[k])
    {
      var drawn, srcIndex := RowTests(col, y, topOfLine, lineHeight, ratio, yImage, imageData.data[..], srcImageHeight, srcColImage);
      if drawn {
        CopyTexel(col, y, imageData, srcIndex);
      }
    }

    /**
     * The tests of a pass of the loop of `drawVertLine`: the pixel is on the
     * plane, the texel inside the texture and not transparent; srcIndex is
     * the texel's first byte.
     */
    static method RowTests(col: int, y: int, topOfLine: int, lineHeight: real, ratio: real, yImage: int,
                           tex: seq<Byte>, srcImageHeight: int, srcColImage: int)
      returns (drawn: bool, srcIndex: int)
      requires topOfLine <= y && (y as real) < (topOfLine as real) + lineHeight
      requires ratio == Div(srcImageHeight as real, lineHeight) && yImage == y - topOfLine + 1
      ensures drawn <==> RowDrawn(tex, col, topOfLine, lineHeight, srcImageHeight, srcColImage, y)
      ensures srcIndex == SourcePixel(topOfLine, lineHeight, srcImageHeight, srcColImage, y) * 4
    {
      RowDrawnTest(tex, col, topOfLine, lineHeight, srcImageHeight, srcColImage, y);
      var pixelPos := (y * MazeGlobals.ProjectionPlaneWidth) + col;
      var srcPixelPos := (Tilde(ratio * yImage as real) * srcImageHeight) + srcColImage;
      SourcePixelOfRow(topOfLine, lineHeight, srcImageHeight, srcColImage, y, ratio, yImage);
      srcIndex := srcPixelPos * 4;
      drawn := false;
      if pixelPos >= 0 && pixelPos < MazeGlobals.ProjectionPlaneWidthTimesHeight {
        if srcPixelPos >= 0 && srcPixelPos < srcImageHeight * srcImageHeight {
          if At(tex, srcIndex + 3) != Some(0) {
            drawn := true;
          }
        }
      }
    }

    /** The `setPixel` of a drawn row: pixel (col, y) gets the texel at srcIndex with alpha 255. */
    method CopyTexel(col: int, y: int, imageData: ImageData, srcIndex: int)
      requires Valid() && imageData.data != tmpImageData.data
      modifies tmpImageData.data
      ensures forall k :: 0 <= k < 256000 ==>
        tmpImageData.data[k]
        == if k / 4 == y * 320 + col then (if k % 4 == 3 then 255 else ByteAt(imageData.data[..], srcIndex + k % 4))
           else old(tmpImageData.data[k])
    {
      var pixelPos := y * 320 + col;
      SetPixel(col, y, Some(ByteAt(imageData.data[..], srcIndex)), Some(ByteAt(imageData.data[..], srcIndex + 1)),
               Some(ByteAt(imageData.data[..], srcIndex + 2)));
      forall k | 0 <= k < 256000
        ensures (k / 4 == pixelPos) <==> (pixelPos * 4 <= k < pixelPos * 4 + 4)
        ensures k / 4 == pixelPos ==> k % 4 == k - pixelPos * 4
      {
        QuadIndex(k, pixelPos);
      }
    }

    /** `drawWallSlice(castColumn, itemHit)`: the buffer becomes WallSlice of it. */
    method DrawWallSlice(castColumn: int, itemHit: HitState)
      requires Valid() && 0 <= castColumn <= ANGLE60
      modifies tmpImageData.data
      ensures tmpImageData.data[..] == WallSlice(old(tmpImageData.data[..]), imageData.data[..], castColumn, itemHit,
                                                 tables.fishTable[castColumn])
    {
      AngleValues();
      if !itemHit.offTheMap {
        var sliceOfWall := Rem(Tilde(itemHit.intersection), MazeGlobals.TileSize);
        var dist := itemHit.distToItem;
        dist := Div(dist, tables.fishTable[castColumn]);
        var projectedWallHeight := ProjectedWallHeight(dist);
        var bottomOfWall := ProjectionPlaneYCenter + Tilde(projectedWallHeight * 0.5);
        var topOfWall := MazeGlobals.ProjectionPlaneHeight - bottomOfWall;
        if bottomOfWall >= MazeGlobals.ProjectionPlaneHeight {
          bottomOfWall := MazeGlobals.ProjectionPlaneHeight - 1;
        }
        // The face test's second half compares two properties no hit has: undefined == undefined holds.
        var leftMostOfSlice := LeftMostOfSlice(sliceOfWall, false);
        DrawVertLine(castColumn, topOfWall, projectedWallHeight, imageData, MazeGlobals.TileSize, leftMostOfSlice);
      }
    }

    /** One pass of the loop of `renderOneFrame`: cast both rays for the column and draw the nearer hit. */
    method DrawColumn(castColumn: int, castArc: int)
      requires Valid() && 0 <= castColumn < 320 && castArc == ColumnArcAt(playerArc, castColumn)
      modifies tmpImageData.data
      ensures tmpImageData.data[..] == ColumnImage(old(tmpImageData.data[..]), CurrentScene(), castColumn)
    {
      AngleValues();
      ValidSceneIsDrawable();
      ghost var s := CurrentScene();
      assert castArc == ColumnArc(s.playerArc, castColumn);
      var horizWallHitItem := CastRayForHorizHit(castArc);
      var vertWallHitItem := CastRayForVertHit(castArc);
      if !(vertWallHitItem.offTheMap && horizWallHitItem.offTheMap) {
        var closestHit := DetermineClosestHit(horizWallHitItem.State(), vertWallHitItem.State());
        if closestHit.distToItem <= -0.0 {
          closestHit := closestHit.(distToItem := 1.0);
        }
        assert closestHit == CorrectedDistance(DetermineClosestHit(HorizHitAt(s, castArc), VertHitAt(s, castArc)));
        DrawWallSlice(castColumn, closestHit);
      }
      assert CurrentScene() == s;
    }

    /**
     * `renderOneFrame()`: the background, then each of the 320 columns
     * left to right; the buffer ends as FrameImage of the scene.
     */
    method RenderOneFrame()
      requires Valid()
      modifies tmpImageData.data
      ensures tmpImageData.data[..] == FrameImage(old(background.memPixels.data[..]), old(CurrentScene()), ANGLE60)
    {
      AngleValues();
      ValidSceneIsDrawable();
      ghost var s := CurrentScene();
      background.CopyBackgroundTo(tmpImageData);
      ghost var bg := tmpImageData.data[..];
      assert bg == old(background.memPixels.data[..]);
      var castArc := playerArc - ANGLE30;
      if castArc < 0 {
        castArc := ANGLE360 + castArc;
      }
      FirstColumnArc(playerArc, castArc);
      var castColumn := 0;
      while castColumn < MazeGlobals.ProjectionPlaneWidth
        invariant 0 <= castColumn <= 320 && 0 <= castArc < ANGLE360
        invariant castArc == ColumnArcAt(playerArc, castColumn)
        invariant Valid() && CurrentScene() == s && Drawable(s)
        invariant tmpImageData.data[..] == FrameImage(bg, s, castColumn)
      {
        DrawColumn(castColumn, castArc);
        ghost var column, arc := castColumn, castArc;
        castArc := castArc + SliceWidth;
        if castArc >= ANGLE360 {
          castArc := castArc - ANGLE360;
        }
        castColumn := castColumn + SliceWidth;
        NextFrame(bg, s, column, castColumn);
        NextColumnArc(playerArc, column, arc, castColumn, castArc);
      }
    }
  }

  /** The arc of the first column: the heading less ANGLE30, wrapped into [0, ANGLE360). */
  lemma FirstColumnArc(playerArc: int, arc: int)
    requires 0 <= playerArc < ANGLE360
    requires arc == if playerArc - ANGLE30 < 0 then ANGLE360 + (playerArc - ANGLE30) else playerArc - ANGLE30
    ensures 0 <= arc < ANGLE360 && arc == ColumnArcAt(playerArc, 0)
  {
    AngleValues();
  }

  /** The frame after the next column is the current column drawn over the frame so far. */
  lemma NextFrame(bg: seq<Byte>, s: Scene, c: int, next: int)
    requires Drawable(s) && 0 <= c < 320 && next == c + SliceWidth
    ensures FrameImage(bg, s, next) == ColumnImage(FrameImage(bg, s, c), s, c)
  {
    assert next - 1 == c;
  }

  /** Stepping the cast arc by one and wrapping it at ANGLE360 gives the next column's arc. */
  lemma NextColumnArc(playerArc: int, c: int, arc: int, next: int, nextArc: int)
    requires arc == ColumnArcAt(playerArc, c) && next == c + SliceWidth
    requires nextArc == if arc + SliceWidth >= ANGLE360 then arc + SliceWidth - ANGLE360 else arc + SliceWidth
    ensures nextArc == ColumnArcAt(playerArc, next)
  {
    AngleValues();
  }

  /** A row of the line is drawn exactly when the three tests of the loop pass. */
  lemma RowDrawnTest(tex: seq<Byte>, col: int, top: int, lineHeight: real, srcSize: int, srcCol: int, y: int)
    requires top <= y && (y as real) < (top as real) + lineHeight
    ensures var sp := SourcePixel(top, lineHeight, srcSize, srcCol, y);
      RowDrawn(tex, col, top, lineHeight, srcSize, srcCol, y)
      <==> (0 <= y * 320 + col < 64000 && 0 <= sp < srcSize * srcSize && At(tex, sp * 4 + 3) != Some(0))
  {
  }

  /** The texel the loop computes for its yImage-th row is SourcePixel of that row. */
  lemma SourcePixelOfRow(top: int, lineHeight: real, srcSize: int, srcCol: int, y: int, ratio: real, yImage: int)
    requires ratio == Div(srcSize as real, lineHeight) && yImage == y - top + 1
    ensures Tilde(ratio * yImage as real) * srcSize + srcCol == SourcePixel(top, lineHeight, srcSize, srcCol, y)
  {
    assert SampledPixel(ratio, yImage, srcSize, srcCol) == SourcePixel(top, lineHeight, srcSize, srcCol, y);
  }

  /** Byte k belongs to pixel p exactly when it is one of the four bytes from 4 * p. */
  lemma QuadIndex(k: int, p: int)
    ensures (k / 4 == p) <==> (p * 4 <= k < p * 4 + 4)
    ensures k / 4 == p ==> k % 4 == k - p * 4
  {
  }

  /** A walk from a passable crossing is the walk from the next one. */
  lemma WalkGoesOn(m: MapData.MapGrid, hitType: Option<int>, g: int, v: real, dg: int, dv: real, origin: real, inv: real,
                   g': int, v': real)
    requires WalkArgs(m, g, dg) && Passable(m, hitType, g, v)
    requires g' == g + dg && v' == v + dv
    ensures 0 <= g < 64 * LineBound(m, hitType)
    ensures WalkArgs(m, g', dg)
    ensures Walk(m, hitType, g, v, dg, dv, origin, inv) == Walk(m, hitType, g', v', dg, dv, origin, inv)
  {
    PassableLineInRange(m, hitType, g, v);
    PassFnWithin(m, hitType);
    StepsGoOn(PassFn(m, hitType), LineBound(m, hitType), g, v, dg, dv, g', v');
  }

  /** What a crossing whose tile is (x, y) at map position pos passes for, and the hit a walk stopping there leaves. */
  lemma CrossingFacts(m: MapData.MapGrid, hitType: Option<int>, g: int, v: real, origin: real, inv: real,
                      x: int, y: int, pos: int)
    requires (x, y) == Cell(hitType, g, v) && pos == MapData.ConvertPointToMapPos(m, x, y)
    ensures Passable(m, hitType, g, v) <==> !OffTheMap(m, x, y) && !MapData.IsWall(m, pos)
    ensures OffTheMap(m, x, y) ==> Stopped(m, hitType, g, v, origin, inv) == HitState(g, v, x, y, pos, true, MaxValue)
    ensures !OffTheMap(m, x, y) ==> Stopped(m, hitType, g, v, origin, inv) == HitState(g, v, x, y, pos, false, ScaledDistance(v, origin, inv))
  {
  }

  /** One crossing of a walk: stopping there leaves the walk's hit, and going on leaves the same walk from the next crossing. */
  lemma WalkMoves(m: MapData.MapGrid, hitType: Option<int>, g: int, v: real, dg: int, dv: real, origin: real, inv: real,
                  stop: bool, st: HitState)
    requires WalkArgs(m, g, dg)
    requires stop <==> !Passable(m, hitType, g, v)
    requires stop ==> st == Stopped(m, hitType, g, v, origin, inv)
    requires !stop ==> st.gridLine == g + dg && st.intersection == v + dv
    ensures stop ==> st == Walk(m, hitType, g, v, dg, dv, origin, inv)
    ensures !stop ==> WalkArgs(m, st.gridLine, dg) && 0 <= g < 64 * LineBound(m, hitType)
                      && Walk(m, hitType, st.gridLine, st.intersection, dg, dv, origin, inv) == Walk(m, hitType, g, v, dg, dv, origin, inv)
  {
    if stop {
      WalkStops(m, hitType, g, v, dg, dv, origin, inv);
    } else {
      WalkGoesOn(m, hitType, g, v, dg, dv, origin, inv, st.gridLine, st.intersection);
    }
  }

  /** A walk from a crossing that is not passable stops there. */
  lemma WalkStops(m: MapData.MapGrid, hitType: Option<int>, g: int, v: real, dg: int, dv: real, origin: real, inv: real)
    requires WalkArgs(m, g, dg) && !Passable(m, hitType, g, v)
    ensures Walk(m, hitType, g, v, dg, dv, origin, inv) == Stopped(m, hitType, g, v, origin, inv)
  {
    PassFnWithin(m, hitType);
    assert WalkSteps(m, hitType, g, v, dg, dv) == 0;
  }

  /** Writing row y of a line takes the bytes of rows below y to those of rows below y + 1. */
  lemma LineByteNextRow(d: seq<Byte>, tex: seq<Byte>, col: int, top: int, lineHeight: real, srcSize: int, srcCol: int,
                        y: int, k: int)
    requires 0 <= k < |d|
    ensures var p := k / 4;
      LineByte(d, tex, col, top, lineHeight, srcSize, srcCol, y + 1, k)
      == if p == y * 320 + col && RowDrawn(tex, col, top, lineHeight, srcSize, srcCol, y) then
           (if k % 4 == 3 then 255 else ByteAt(tex, SourcePixel(top, lineHeight, srcSize, srcCol, y) * 4 + k % 4))
         else LineByte(d, tex, col, top, lineHeight, srcSize, srcCol, y, k)
  {
    RowOfPixel(k / 4, col, y);
  }

  /** Pixel p is in column col of row y exactly when p - col is y whole rows of 320. */
  lemma RowOfPixel(p: int, col: int, y: int)
    ensures (p == y * 320 + col) <==> ((p - col) % 320 == 0 && (p - col) / 320 == y)
  {
    if p == y * 320 + col {
      assert p - col == y * 320;
    }
  }

  /** Once the rows reach the bottom of the line, every drawn row is written. */
  lemma LineByteAllRows(d: seq<Byte>, tex: seq<Byte>, col: int, top: int, lineHeight: real, srcSize: int, srcCol: int,
                        y: int, k: int)
    requires 0 <= k < |d| && (y as real) >= (top as real) + lineHeight
    ensures LineByte(d, tex, col, top, lineHeight, srcSize, srcCol, y, k)
            == VertLine(d, tex, col, top, lineHeight, srcSize, srcCol)[k]
  {
  }
}

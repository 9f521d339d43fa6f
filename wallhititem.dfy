// A wall hit: the point where one ray meets a grid line of the aerial map,
// the small-map tile that point lies on, and whether the ray left the map
// or stopped at a wall there. The two ray walks of the maze are stated here
// as pure functions of their start; the maze's loops are proved against them.
module WallHits {
  import opened Js
  import MapData

  // WallHitItemConsts.
  const TopSideHit: int := 0
  const RightSideHit: int := 1
  const BottomSideHit: int := 2
  const LeftSideHit: int := 3
  const HorizHit: int := 0
  const VertHit: int := 1

  /** The fields of a hit that the ray walk and the slice drawing use. */
  datatype HitState = HitState(gridLine: int, intersection: real, xGridIndex: int, yGridIndex: int,
                               mapPos: int, offTheMap: bool, distToItem: real)

  /** `~~(intersection / TILE_SIZE)`: the tile index along a grid line, truncated toward zero. */
  function IntersectionIndex(v: real): int {
    Tilde(v / 64.0)
  }

  /**
   * An intersection within one tile of the origin, on either side, is in
   * tile 0; a non-negative one inside the 32-bit range lies in the tile
   * its index names.
   */
  lemma IntersectionIndexRange(v: real)
    ensures -64.0 < v < 64.0 ==> IntersectionIndex(v) == 0
    ensures 0.0 <= v < 137438953472.0 ==>
      (64 * IntersectionIndex(v)) as real <= v < (64 * IntersectionIndex(v) + 64) as real
  {
  }

  /** `gridLine >> TILE_SIZE_SHIFT`: the tile index of a grid line, rounded toward minus infinity. */
  function GridLineIndex(g: int): (i: int)
    ensures IsInt32(i)
    ensures i * 64 <= ToInt32(g) < i * 64 + 64
    ensures IsInt32(g) ==> i * 64 <= g < i * 64 + 64
  {
    Pow2Values();
    Sar(g, 6)
  }

  /**
   * The small-map tile (x, y) of a hit as `calcAndSetMapPos` picks it: a
   * horizontal hit takes x from its intersection and y from its grid line;
   * any other hit type, an undefined one included, the other way round.
   */
  function Cell(hitType: Option<int>, gridLine: int, intersection: real): (int, int)
  {
    if hitType == Some(HorizHit) then (IntersectionIndex(intersection), GridLineIndex(gridLine))
    else (GridLineIndex(gridLine), IntersectionIndex(intersection))
  }

  /** The test of `calcAndSetOffTheMap`: an index outside [0, mapWidth) x [0, mapHeight). */
  predicate OffTheMap(m: MapData.MapGrid, x: int, y: int) {
    x >= m.mapWidth || y >= m.mapHeight || x < 0 || y < 0
  }

  /** A ray walk goes on past a grid-line crossing whose tile is on the map and open. */
  predicate Passable(m: MapData.MapGrid, hitType: Option<int>, g: int, v: real) {
    var c := Cell(hitType, g, v);
    !OffTheMap(m, c.0, c.1) && !MapData.IsWall(m, MapData.ConvertPointToMapPos(m, c.0, c.1))
  }

  /** The number of tiles across the grid lines, in the direction the grid line's index counts. */
  function LineBound(m: MapData.MapGrid, hitType: Option<int>): int {
    if hitType == Some(HorizHit) then m.mapHeight else m.mapWidth
  }

  /** The arguments a walk starts from: a bounded grid, a step of one tile, a grid line the shifts can read. */
  predicate WalkArgs(m: MapData.MapGrid, g: int, dg: int) {
    MapData.Bounded(m) && (dg == 64 || dg == -64) && -TWO31 - 1 <= g <= TWO31
  }

  /** Inside the 33-bit range, a grid line whose index is in [0, b) lies in [0, 64 * b). */
  lemma LineIndexInRange(g: int, b: int)
    requires -TWO31 - 1 <= g <= TWO31 && b <= MapData.MaxTiles
    requires 0 <= GridLineIndex(g) < b
    ensures 0 <= g < 64 * b
  {
  }

  /** A passable crossing's grid line is on the map. */
  lemma PassableLineInRange(m: MapData.MapGrid, hitType: Option<int>, g: int, v: real)
    requires WalkArgs(m, g, 64) && Passable(m, hitType, g, v)
    ensures 0 <= g < 64 * LineBound(m, hitType)
  {
    LineIndexInRange(g, LineBound(m, hitType));
  }

  /** One step of a walk moves the grid line's tile index by exactly one tile. */
  lemma StepMovesOneTile(g: int, dg: int)
    requires 0 <= g < 64 * MapData.MaxTiles && (dg == 64 || dg == -64)
    ensures GridLineIndex(g + dg) == GridLineIndex(g) + dg / 64
  {
    assert IsInt32(g) && IsInt32(g + dg);
  }

  /** The crossing a walk reaches after j steps of (dg, dv). */
  function Crossing(g: int, v: real, dg: int, dv: real, j: nat): (int, real)
    decreases j
  {
    if j == 0 then (g, v) else Crossing(g + dg, v + dv, dg, dv, j - 1)
  }

  /** j + 1 steps from a crossing are j steps from the next one. */
  lemma CrossingNext(g: int, v: real, dg: int, dv: real, j: nat)
    ensures Crossing(g, v, dg, dv, j + 1) == Crossing(g + dg, v + dv, dg, dv, j)
  {
  }

  /** After j steps of one tile the grid line has moved by 64 * j. */
  lemma {:induction false} CrossingLine(g: int, v: real, dg: int, dv: real, j: nat)
    requires dg == 64 || dg == -64
    ensures Crossing(g, v, dg, dv, j).0 == (if dg > 0 then g + 64 * j else g - 64 * j)
    decreases j
  {
    if j > 0 {
      CrossingLine(g + dg, v + dv, dg, dv, j - 1);
    }
  }

  /** The passability test of a walk, as a function of the crossing. */
  function PassFn(m: MapData.MapGrid, hitType: Option<int>): (int, real) -> bool {
    (g: int, v: real) => Passable(m, hitType, g, v)
  }

  /** A passability test under which every passable grid line the shifts can read lies in [0, 64 * bound). */
  ghost predicate PassesWithin(pass: (int, real) -> bool, bound: int) {
    0 <= bound <= MapData.MaxTiles
    && forall g: int, v: real :: -TWO31 - 1 <= g <= TWO31 && pass(g, v) ==> 0 <= g < 64 * bound
  }

  /** The tiles of a bounded grid pass that test. */
  lemma PassFnWithin(m: MapData.MapGrid, hitType: Option<int>)
    requires MapData.Bounded(m)
    ensures PassesWithin(PassFn(m, hitType), LineBound(m, hitType))
  {
    forall g: int, v: real | -TWO31 - 1 <= g <= TWO31 && PassFn(m, hitType)(g, v)
      ensures 0 <= g < 64 * LineBound(m, hitType)
    {
      PassableLineInRange(m, hitType, g, v);
    }
  }

  /**
   * How many passable crossings a walk from (g, v) goes through before it
   * stops. Each of them is on the map, so there are at most as many as the
   * grid has tiles across the grid lines.
   */
  function Steps(pass: (int, real) -> bool, bound: int, g: int, v: real, dg: int, dv: real): (k: nat)
    requires PassesWithin(pass, bound) && (dg == 64 || dg == -64) && -TWO31 - 1 <= g <= TWO31
    ensures k > 0 ==> 0 <= g < 64 * bound
    ensures k > 0 && dg > 0 ==> g + 64 * (k - 1) < 64 * bound
    ensures k > 0 && dg < 0 ==> 0 <= g - 64 * (k - 1)
    ensures k <= bound
    decreases if dg > 0 then 64 * bound + 64 - g else g + 64
  {
    if !pass(g, v) then 0 else 1 + Steps(pass, bound, g + dg, v + dv, dg, dv)
  }

  /** The hit a walk leaves at the crossing where it stops: off the map with MAX_VALUE, or on a wall at its distance. */
  function Stopped(m: MapData.MapGrid, hitType: Option<int>, g: int, v: real, origin: real, inv: real): HitState
  {
    var c := Cell(hitType, g, v);
    var off := OffTheMap(m, c.0, c.1);
    HitState(g, v, c.0, c.1, MapData.ConvertPointToMapPos(m, c.0, c.1), off,
             if off then MaxValue else ScaledDistance(v, origin, inv))
  }

  /** The distance `(intersection - origin) * inv` a hit on a wall records. */
  function ScaledDistance(v: real, origin: real, inv: real): real {
    (v - origin) * inv
  }

  /** The number of passable crossings of a walk over grid m. */
  function WalkSteps(m: MapData.MapGrid, hitType: Option<int>, g: int, v: real, dg: int, dv: real): nat
    requires WalkArgs(m, g, dg)
  {
    PassFnWithin(m, hitType);
    Steps(PassFn(m, hitType), LineBound(m, hitType), g, v, dg, dv)
  }

  /**
   * The hit a grid-line walk from (g, v) returns: it passes WalkSteps
   * crossings and stops at the next. `origin` is the player's coordinate
   * along the grid line and `inv` the reciprocal the distance is scaled by.
   */
  function Walk(m: MapData.MapGrid, hitType: Option<int>, g: int, v: real, dg: int, dv: real,
                origin: real, inv: real): HitState
    requires WalkArgs(m, g, dg)
  {
    var c := Crossing(g, v, dg, dv, WalkSteps(m, hitType, g, v, dg, dv));
    Stopped(m, hitType, c.0, c.1, origin, inv)
  }

  /** Every crossing before the last is passable, and the last one is not. */
  lemma {:induction false} StepsCrossings(pass: (int, real) -> bool, bound: int, g: int, v: real, dg: int, dv: real, j: nat)
    requires PassesWithin(pass, bound) && (dg == 64 || dg == -64) && -TWO31 - 1 <= g <= TWO31
    requires j <= Steps(pass, bound, g, v, dg, dv)
    ensures var c := Crossing(g, v, dg, dv, j);
      (j < Steps(pass, bound, g, v, dg, dv) ==> pass(c.0, c.1))
      && (j == Steps(pass, bound, g, v, dg, dv) ==> !pass(c.0, c.1))
    decreases j
  {
    if j > 0 {
      StepsCrossings(pass, bound, g + dg, v + dv, dg, dv, j - 1);
    }
  }

  /** A walk from a crossing that passes the test counts that crossing and goes on from the next. */
  lemma StepsGoOn(pass: (int, real) -> bool, bound: int, g: int, v: real, dg: int, dv: real, g': int, v': real)
    requires PassesWithin(pass, bound) && (dg == 64 || dg == -64) && -TWO31 - 1 <= g <= TWO31 && pass(g, v)
    requires g' == g + dg && v' == v + dv
    ensures -TWO31 - 1 <= g' <= TWO31
    ensures Steps(pass, bound, g, v, dg, dv) == 1 + Steps(pass, bound, g', v', dg, dv)
    ensures Crossing(g, v, dg, dv, Steps(pass, bound, g, v, dg, dv)) == Crossing(g', v', dg, dv, Steps(pass, bound, g', v', dg, dv))
  {
    CrossingNext(g, v, dg, dv, Steps(pass, bound, g', v', dg, dv));
  }

  /** The crossings of a walk over grid m before its last are passable, and the last is not. */
  lemma WalkCrossings(m: MapData.MapGrid, hitType: Option<int>, g: int, v: real, dg: int, dv: real, j: nat)
    requires WalkArgs(m, g, dg)
    requires j <= WalkSteps(m, hitType, g, v, dg, dv)
    ensures var c := Crossing(g, v, dg, dv, j);
      (j < WalkSteps(m, hitType, g, v, dg, dv) ==> Passable(m, hitType, c.0, c.1))
      && (j == WalkSteps(m, hitType, g, v, dg, dv) ==> !Passable(m, hitType, c.0, c.1))
  {
    PassFnWithin(m, hitType);
    StepsCrossings(PassFn(m, hitType), LineBound(m, hitType), g, v, dg, dv, j);
  }

  /**
   * A walk ends in one of two states: off the map with distance MAX_VALUE,
   * or on the map at a wall tile with distance (intersection - origin) * inv.
   */
  lemma WalkOutcome(m: MapData.MapGrid, hitType: Option<int>, g: int, v: real, dg: int, dv: real, origin: real, inv: real)
    requires WalkArgs(m, g, dg)
    ensures var r := Walk(m, hitType, g, v, dg, dv, origin, inv);
      (r.xGridIndex, r.yGridIndex) == Cell(hitType, r.gridLine, r.intersection)
      && r.mapPos == MapData.ConvertPointToMapPos(m, r.xGridIndex, r.yGridIndex)
      && (r.offTheMap <==> OffTheMap(m, r.xGridIndex, r.yGridIndex))
      && (r.offTheMap ==> r.distToItem == MaxValue)
      && (!r.offTheMap ==> MapData.IsWall(m, r.mapPos) && r.distToItem == ScaledDistance(r.intersection, origin, inv))
  {
    var k := WalkSteps(m, hitType, g, v, dg, dv);
    var c := Crossing(g, v, dg, dv, k);
    WalkCrossings(m, hitType, g, v, dg, dv, k);
    assert !Passable(m, hitType, c.0, c.1);
  }

  /**
   * A walk's grid line is its start moved by whole tiles, one per passable
   * crossing, and there are at most as many as the grid has tiles across
   * the grid lines.
   */
  lemma WalkLength(m: MapData.MapGrid, hitType: Option<int>, g: int, v: real, dg: int, dv: real, origin: real, inv: real)
    requires WalkArgs(m, g, dg)
    ensures var r := Walk(m, hitType, g, v, dg, dv, origin, inv);
      var k := WalkSteps(m, hitType, g, v, dg, dv);
      r.gridLine == (if dg > 0 then g + 64 * k else g - 64 * k) && k <= LineBound(m, hitType)
  {
    CrossingLine(g, v, dg, dv, WalkSteps(m, hitType, g, v, dg, dv));
  }

  /**
   * `determineClosestHit(horiz, vert)`: never an off-map hit when the other
   * is on the map, the horizontal hit when both are off, and otherwise the
   * nearer one, the vertical hit on a tie.
   */
  function DetermineClosestHit(horiz: HitState, vert: HitState): (r: HitState)
    ensures r == horiz || r == vert
    ensures r.offTheMap ==> horiz.offTheMap && vert.offTheMap
    ensures horiz.offTheMap && vert.offTheMap ==> r == horiz
    ensures !horiz.offTheMap && !vert.offTheMap && horiz.distToItem < vert.distToItem ==> r == horiz
    ensures !horiz.offTheMap && !vert.offTheMap && horiz.distToItem >= vert.distToItem ==> r == vert
    ensures !horiz.offTheMap && !vert.offTheMap ==> r.distToItem <= horiz.distToItem && r.distToItem <= vert.distToItem
  {
    if vert.offTheMap && horiz.offTheMap then horiz
    else if vert.offTheMap then horiz
    else if horiz.offTheMap then vert
    else if horiz.distToItem < vert.distToItem then horiz
    else vert
  }

  class WallHitItem {
    var hitType: Option<int>
    var gridLine: int
    var intersection: real
    var castArc: int
    var hitSide: int
    var offTheMap: bool
    var distToItem: real
    var xGridIndex: int
    var yGridIndex: int
    var mapPos: int

    /** `new WallHitItem(hitType, gridLine, intersection, castArc)`; the other fields keep the prototype's values. */
    constructor (hitType: Option<int>, gridLine: int, intersection: real, castArc: int)
      ensures this.hitType == hitType && this.gridLine == gridLine
      ensures this.intersection == intersection && this.castArc == castArc
      ensures hitSide == TopSideHit && !offTheMap && distToItem == 0.0
      ensures xGridIndex == 0 && yGridIndex == 0 && mapPos == 0
    {
      this.hitType := hitType;
      this.gridLine := gridLine;
      this.intersection := intersection;
      this.castArc := castArc;
      hitSide := TopSideHit;
      offTheMap := false;
      distToItem := 0.0;
      xGridIndex, yGridIndex, mapPos := 0, 0, 0;
    }

    function State(): HitState
      reads this
    {
      HitState(gridLine, intersection, xGridIndex, yGridIndex, mapPos, offTheMap, distToItem)
    }

    /** `isHorizHit()`: false for an undefined hit type; for the two defined kinds, exactly when it is not vertical. */
    function IsHorizHit(): (r: bool)
      reads this
      ensures hitType.None? ==> !r
      ensures hitType == Some(HorizHit) || hitType == Some(VertHit) ==> (r <==> !IsVertHit())
    {
      hitType == Some(HorizHit)
    }

    /** `isVertHit()`: false for an undefined hit type, and never together with a horizontal hit. */
    function IsVertHit(): (r: bool)
      reads this
      ensures hitType.None? ==> !r
      ensures r ==> hitType != Some(HorizHit)
    {
      hitType == Some(VertHit)
    }

    /** `calcAndSetMapPos(mapData)`: the tile indices of the hit by the rule of Cell, and their map position. */
    method CalcAndSetMapPos(mapData: MapData.MapGrid) returns (p: int)
      modifies this
      ensures (xGridIndex, yGridIndex) == Cell(hitType, gridLine, intersection)
      ensures mapPos == MapData.ConvertPointToMapPos(mapData, xGridIndex, yGridIndex) && p == mapPos
      ensures hitType == old(hitType) && gridLine == old(gridLine) && intersection == old(intersection)
      ensures castArc == old(castArc) && hitSide == old(hitSide)
      ensures offTheMap == old(offTheMap) && distToItem == old(distToItem)
    {
      if hitType == Some(HorizHit) {
        xGridIndex := IntersectionIndex(intersection);
        yGridIndex := GridLineIndex(gridLine);
      } else {
        xGridIndex := GridLineIndex(gridLine);
        yGridIndex := IntersectionIndex(intersection);
      }
      mapPos := MapData.ConvertPointToMapPos(mapData, xGridIndex, yGridIndex);
      p := mapPos;
    }

    /**
     * `calcAndSetOffTheMap(mapData)`: when an index is off the map, the hit
     * becomes off-map at distance MAX_VALUE; otherwise nothing changes (an
     * off-map hit is never reset).
     */
    method CalcAndSetOffTheMap(mapData: MapData.MapGrid) returns (r: bool)
      modifies this
      ensures OffTheMap(mapData, xGridIndex, yGridIndex) ==> offTheMap && distToItem == MaxValue
      ensures !OffTheMap(mapData, xGridIndex, yGridIndex) ==> offTheMap == old(offTheMap) && distToItem == old(distToItem)
      ensures r == offTheMap
      ensures hitType == old(hitType) && gridLine == old(gridLine) && intersection == old(intersection)
      ensures castArc == old(castArc) && hitSide == old(hitSide)
      ensures xGridIndex == old(xGridIndex) && yGridIndex == old(yGridIndex) && mapPos == old(mapPos)
    {
      if xGridIndex >= mapData.mapWidth || yGridIndex >= mapData.mapHeight || xGridIndex < 0 || yGridIndex < 0 {
        distToItem := MaxValue;
        offTheMap := true;
      }
      r := offTheMap;
    }
  }

  /** The hit kinds are complementary for the two defined hit types, and both tests fail on an undefined one. */
  lemma HitKinds(h: WallHitItem)
    ensures h.hitType == Some(HorizHit) ==> h.IsHorizHit() && !h.IsVertHit()
    ensures h.hitType == Some(VertHit) ==> !h.IsHorizHit() && h.IsVertHit()
    ensures h.hitType.None? ==> !h.IsHorizHit() && !h.IsVertHit()
  {
  }

  /**
   * Truncation toward zero puts an intersection in (-64, 0) on tile 0,
   * while the grid line -1 (the line just above row 0) is on tile -1.
   */
  lemma TruncationAtTheEdge(v: real)
    requires -64.0 < v < 0.0
    ensures IntersectionIndex(v) == 0
    ensures GridLineIndex(-1) == -1
    ensures Cell(Some(HorizHit), -1, v) == (0, -1)
  {
    IntersectionIndexRange(v);
  }
}

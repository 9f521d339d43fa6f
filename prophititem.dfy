// Where a prop stands relative to the player: its distance, with the fish-eye
// correction, and the screen column of its mid-point.
//
// The host's floating-point functions (Math.sqrt, Math.atan, Math.cos, Math.PI)
// are parameters. `Trig.radToDegrees` is called as a property of the `Trig`
// constructor, which defines no such property, so by default the call throws a
// TypeError; the model takes it as an optional function.
module PropHitItem {
  import opened Js
  import opened Trig
  import MapData
  import MazeGlobals

  /** The floating-point functions `setPropHitItemData` calls. */
  datatype PropMath = PropMath(host: MathHost, sqrt: real -> real, atan: real -> real,
                               radToDegrees: Option<real -> real>)

  /** The distance and mid-point column `setPropHitItemData` stores. */
  datatype PropPlacement = PropPlacement(dist: real, colMidProp: int)

  /** `(~~mapPos) % mapWidth`: the column; NaN (None) when the map is zero wide. */
  function PropColumn(m: MapData.MapGrid, mapPos: int): (col: Option<int>)
    ensures col.None? <==> m.mapWidth == 0
    ensures m.mapWidth > 0 && 0 <= mapPos < TWO31 ==> col == Some(mapPos % m.mapWidth)
  {
    if m.mapWidth == 0 then None else Some(Rem(ToInt32(mapPos), m.mapWidth))
  }

  /** A map coordinate shifted to a tile's left or top edge, plus half a tile; NaN shifts as 0. */
  function TileMiddle(index: Option<int>): int
  {
    Shl(if index.Some? then index.value else 0, MazeGlobals.TileSizeShift) + Sar(MazeGlobals.TileSize, 1)
  }

  /** The centre (x2, y2) of the prop's tile. */
  function PropCentre(m: MapData.MapGrid, mapPos: int): (c: (int, int))
  {
    (TileMiddle(PropColumn(m, mapPos)), TileMiddle(Some(Sar(mapPos, m.mapWidthShift))))
  }

  /** On an ordinary map the centre is the tile's column and row scaled by 64, plus 32. */
  lemma {:induction false} CentreOfTile(m: MapData.MapGrid, mapPos: int)
    requires 0 < m.mapWidth && 0 <= m.mapWidthShift <= 20 && 0 <= mapPos < 0x20_0000
    ensures PropCentre(m, mapPos).0 == (mapPos % m.mapWidth) * 64 + 32
    ensures PropCentre(m, mapPos).1 == (mapPos / Pow2(m.mapWidthShift)) * 64 + 32
  {
    var col := mapPos % m.mapWidth;
    assert 0 <= col <= mapPos;
    TileMiddleOf(col);
    RowOf(m.mapWidthShift, mapPos);
    TileMiddleOf(mapPos / Pow2(m.mapWidthShift));
  }

  lemma TileMiddleOf(i: int)
    requires 0 <= i < 0x20_0000
    ensures TileMiddle(Some(i)) == i * 64 + 32
  {
    ShiftBySixFacts(i);
    assert Sar(MazeGlobals.TileSize, 1) == 32 by {
      assert Pow2(ShiftCount(1)) == 2;
    }
  }

  lemma RowOf(shift: int, mapPos: int)
    requires 0 <= shift <= 20 && 0 <= mapPos < 0x20_0000
    ensures Sar(mapPos, shift) == mapPos / Pow2(shift)
    ensures 0 <= mapPos / Pow2(shift) <= mapPos
  {
    assert ToInt32(mapPos) == mapPos;
    assert ShiftCount(shift) == shift;
    DivBound(mapPos, Pow2(shift));
  }

  lemma DivBound(a: nat, b: int)
    requires b >= 1
    ensures 0 <= a / b <= a
  {
  }

  /** Lines 44-48: |xRel| on the same row, else the truncated square root. */
  function PropDistance(math: PropMath, xRel: real, yRel: real): real
  {
    if 0.0 == yRel then Abs(xRel) else Tilde(math.sqrt(Abs(xRel * xRel + yRel * yRel))) as real
  }

  /**
   * With a correct square root, the distance is the Euclidean distance on the
   * player's row, and its integer part otherwise.
   */
  lemma {:induction false} DistanceIsEuclidean(math: PropMath, xRel: real, yRel: real)
    requires 0.0 <= math.sqrt(xRel * xRel + yRel * yRel)
    requires math.sqrt(xRel * xRel + yRel * yRel) * math.sqrt(xRel * xRel + yRel * yRel) == xRel * xRel + yRel * yRel
    requires math.sqrt(xRel * xRel + yRel * yRel) < TWO31 as real
    ensures var d := PropDistance(math, xRel, yRel);
            0.0 <= d && d * d <= xRel * xRel + yRel * yRel < (d + 1.0) * (d + 1.0)
    ensures yRel == 0.0 ==> PropDistance(math, xRel, yRel) * PropDistance(math, xRel, yRel) == xRel * xRel
  {
    if 0.0 == yRel {
      DistanceOnRow(math, xRel, yRel);
    } else {
      DistanceOffRow(math, xRel, yRel);
    }
  }

  /** On the player's row the distance is |xRel|, whose square is xRel^2. */
  lemma DistanceOnRow(math: PropMath, xRel: real, yRel: real)
    requires yRel == 0.0
    ensures var d := PropDistance(math, xRel, yRel);
            0.0 <= d && d * d == xRel * xRel + yRel * yRel < (d + 1.0) * (d + 1.0)
  {
    var d := PropDistance(math, xRel, yRel);
    assert d == Abs(xRel);
    SquareOfAbs(xRel, xRel * xRel + yRel * yRel);
    SquareBelowNext(d);
  }

  /** Off the player's row the distance is the integer part of an exact root. */
  lemma DistanceOffRow(math: PropMath, xRel: real, yRel: real)
    requires yRel != 0.0
    requires 0.0 <= math.sqrt(xRel * xRel + yRel * yRel)
    requires math.sqrt(xRel * xRel + yRel * yRel) * math.sqrt(xRel * xRel + yRel * yRel) == xRel * xRel + yRel * yRel
    requires math.sqrt(xRel * xRel + yRel * yRel) < TWO31 as real
    ensures var d := PropDistance(math, xRel, yRel);
            0.0 <= d && d * d <= xRel * xRel + yRel * yRel < (d + 1.0) * (d + 1.0)
  {
    var q := xRel * xRel + yRel * yRel;
    SquaresNonNegative(xRel, yRel);
    assert Abs(q) == q;
    var s := math.sqrt(q);
    assert PropDistance(math, xRel, yRel) == Trunc(s) as real;
    SquareBracket(PropDistance(math, xRel, yRel), s, q);
  }

  /** On the player's row the sum of squares is the square of |x|. */
  lemma SquareOfAbs(x: real, q: real)
    requires q == x * x + 0.0 * 0.0
    ensures Abs(x) * Abs(x) == q
  {
  }

  /** The integer part d of a non-negative root s of q brackets q between d^2 and (d + 1)^2. */
  lemma SquareBracket(d: real, s: real, q: real)
    requires 0.0 <= s && d == Trunc(s) as real && s * s == q
    ensures 0.0 <= d && d * d <= q < (d + 1.0) * (d + 1.0)
  {
    SquareBetween(d, s);
  }

  lemma SquaresNonNegative(x: real, y: real)
    ensures 0.0 <= x * x && 0.0 <= y * y
  {
  }

  lemma SquareBelowNext(d: real)
    requires 0.0 <= d
    ensures d * d < (d + 1.0) * (d + 1.0)
  {
  }

  lemma SquareBetween(d: real, s: real)
    requires 0.0 <= d <= s < d + 1.0
    ensures d * d <= s * s < (d + 1.0) * (d + 1.0)
  {
    SquareMonotone(d, s);
    SquareStrictlyMonotone(s, d + 1.0);
  }

  /** Squaring is monotone on non-negative numbers. */
  lemma SquareMonotone(a: real, b: real)
    requires 0.0 <= a <= b
    ensures a * a <= b * b
  {
    ProductNonNegative(a, b - a);
    ProductNonNegative(b, b - a);
  }

  /** Squaring is strictly monotone on non-negative numbers. */
  lemma SquareStrictlyMonotone(a: real, b: real)
    requires 0.0 <= a < b
    ensures a * a < b * b
  {
    ProductNonNegative(a, b - a);
    ProductSign(b, b - a);
  }

  lemma ProductNonNegative(a: real, b: real)
    requires 0.0 <= a && 0.0 <= b
    ensures 0.0 <= a * b
  {
  }

  /** Lines 57-62: the angle added to atan's degrees to reach the right quadrant; None on the prop's centre. */
  function Supplement(x1: real, y1: real, x2: real, y2: real): (r: Option<real>)
    ensures r.None? <==> x1 == x2 || y1 == y2
    ensures x1 < x2 && y1 < y2 ==> r == Some(0.0)
    ensures x1 > x2 && y1 != y2 ==> r == Some(180.0)
    ensures x1 < x2 && y1 > y2 ==> r == Some(360.0)
  {
    if x1 < x2 && y1 < y2 then Some(0.0)
    else if x1 > x2 && y1 < y2 then Some(180.0)
    else if x1 > x2 && y1 > y2 then Some(180.0)
    else if x1 < x2 && y1 > y2 then Some(360.0)
    else None
  }

  /**
   * Lines 51-68: the bearing from the player to the prop in degrees, or None
   * when the player stands on the prop's centre (the early return).
   */
  function Bearing(math: PropMath, x1: real, y1: real, x2: real, y2: real): (r: Outcome<Option<real>>)
    ensures r == Returns(None) <==> x1 == x2 && y1 == y2
    ensures y1 == y2 && x1 < x2 ==> r == Returns(Some(0.0))
    ensures x1 == x2 && y1 < y2 ==> r == Returns(Some(90.0))
    ensures y1 == y2 && x1 > x2 ==> r == Returns(Some(180.0))
    ensures x1 == x2 && y1 > y2 ==> r == Returns(Some(270.0))
    ensures r.Throws? <==> x1 != x2 && y1 != y2 && math.radToDegrees.None?
    ensures r.Throws? ==> r.error == TypeError
  {
    if y1 == y2 && x1 - x2 < 0.0 then Returns(Some(0.0))
    else if x1 == x2 && y1 - y2 < 0.0 then Returns(Some(90.0))
    else if y1 == y2 && x1 - x2 > 0.0 then Returns(Some(180.0))
    else if x1 == x2 && y1 - y2 > 0.0 then Returns(Some(270.0))
    else match Supplement(x1, y1, x2, y2)
      case None => Returns(None)
      case Some(supAng) =>
        var angleRad := math.atan(Div(y1 - y2, x1 - x2));
        if math.radToDegrees.None? then Throws(TypeError)
        else Returns(Some(math.radToDegrees.value(angleRad) + supAng))
  }

  /**
   * With an atan whose degrees lie strictly between -90 and 90 and share the
   * sign of their argument, an off-axis bearing falls in the quadrant the
   * prop is in: (0, 90) below-right, (90, 270) to the left, (270, 360) above-right.
   */
  lemma {:induction false} BearingInQuadrant(math: PropMath, x1: real, y1: real, x2: real, y2: real)
    requires x1 != x2 && y1 != y2 && math.radToDegrees.Some?
    requires var t := Div(y1 - y2, x1 - x2);
             var deg := math.radToDegrees.value(math.atan(t));
             -90.0 < deg < 90.0 && (t > 0.0 ==> deg > 0.0) && (t < 0.0 ==> deg < 0.0)
    ensures Bearing(math, x1, y1, x2, y2).Returns? && Bearing(math, x1, y1, x2, y2).value.Some?
    ensures var ang := Bearing(math, x1, y1, x2, y2).value.value;
            (x1 < x2 && y1 < y2 ==> 0.0 < ang < 90.0)
            && (x1 > x2 ==> 90.0 < ang < 270.0)
            && (x1 < x2 && y1 > y2 ==> 270.0 < ang < 360.0)
  {
    QuotientSign(y1 - y2, x1 - x2);
  }

  lemma QuotientSign(a: real, b: real)
    requires a != 0.0 && b != 0.0
    ensures (a > 0.0) == (b > 0.0) ==> Div(a, b) > 0.0
    ensures (a > 0.0) != (b > 0.0) ==> Div(a, b) < 0.0
  {
    ProductSign(Div(a, b), b);
  }

  lemma ProductSign(q: real, b: real)
    ensures q == 0.0 || b == 0.0 ==> q * b == 0.0
    ensures (q > 0.0 && b > 0.0) || (q < 0.0 && b < 0.0) ==> q * b > 0.0
    ensures (q > 0.0 && b < 0.0) || (q < 0.0 && b > 0.0) ==> q * b < 0.0
  {
  }

  /** Line 69: degrees to maze angle units, `~~(ang * ANGLE60 / 60)`. */
  function MazeUnits(ang: real): int
  {
    Tilde(ang * ANGLE60 as real / 60.0)
  }

  /** The four axis bearings land on the four maze axes. */
  lemma AxisBearingsInMazeUnits()
    ensures MazeUnits(0.0) == ANGLE0 && MazeUnits(90.0) == ANGLE90
    ensures MazeUnits(180.0) == ANGLE180 && MazeUnits(270.0) == ANGLE270
  {
    AngleValues();
    assert 0.0 * 320.0 / 60.0 == 0.0 && 90.0 * 320.0 / 60.0 == 480.0;
    assert 180.0 * 320.0 / 60.0 == 960.0 && 270.0 * 320.0 / 60.0 == 1440.0;
  }

  /** Lines 72-76: move whichever of the arc and the bearing sits across the 0/360 seam down by ANGLE360. */
  function Unwrap(playerArc: int, angMazeUnits: int): (r: (int, int))
  {
    var arc := if playerArc > ANGLE270 && angMazeUnits < ANGLE90 then playerArc - ANGLE360 else playerArc;
    var bearing := if angMazeUnits > ANGLE270 && arc < ANGLE90 then angMazeUnits - ANGLE360 else angMazeUnits;
    (arc, bearing)
  }

  /**
   * Unwrapping changes the arc and the bearing by whole turns only, and for
   * an arc and a bearing inside one turn that sit in the first and the last
   * quadrant, it brings them within half a turn of each other.
   */
  lemma {:induction false} UnwrapKeepsDirection(playerArc: int, angMazeUnits: int)
    ensures var (arc, bearing) := Unwrap(playerArc, angMazeUnits);
            (arc - playerArc) % ANGLE360 == 0 && (bearing - angMazeUnits) % ANGLE360 == 0
            && (arc - bearing - (playerArc - angMazeUnits)) % ANGLE360 == 0
    ensures 0 <= playerArc < ANGLE360 && 0 <= angMazeUnits < ANGLE360
            && ((playerArc > ANGLE270 && angMazeUnits < ANGLE90) || (angMazeUnits > ANGLE270 && playerArc < ANGLE90))
            ==> var (arc, bearing) := Unwrap(playerArc, angMazeUnits);
                -ANGLE180 < arc - bearing < ANGLE180
  {
    AngleValues();
  }

  /** Line 77: the mid-point column, `~~((320 >> 1) - (arc - bearing))`. */
  function MidColumn(arc: int, bearing: int): int
  {
    ToInt32(Sar(MazeGlobals.ProjectionPlaneWidth, 1) - (arc - bearing))
  }

  /** A prop dead ahead is drawn at the centre column; each arc unit to its left moves it one column right. */
  lemma {:induction false} MidColumnOffset(arc: int, bearing: int)
    requires IsInt32(160 - (arc - bearing))
    ensures MidColumn(arc, bearing) == 160 + (bearing - arc)
    ensures arc == bearing ==> MidColumn(arc, bearing) == MazeGlobals.ProjectionPlaneWidth / 2
  {
    assert Sar(MazeGlobals.ProjectionPlaneWidth, 1) == 160 by {
      assert Pow2(ShiftCount(1)) == 2;
    }
  }

  /**
   * Lines 80-83: the divisor that corrects the fish-eye: the table entry for an
   * on-screen column, otherwise 1 / cos(arcToRad(ang)) of the angle in degrees.
   */
  function FisheyeDivisor(math: PropMath, fish: seq<real>, col: int, ang: real): real
    requires |fish| == ANGLE60 + 1
  {
    if 0 <= col < MazeGlobals.ProjectionPlaneWidth then fish[col]
    else Div(1.0, math.host.cos(ArcToRad(math.host, ang)))
  }

  /**
   * With the fish-eye table `createTables` builds, the divisor is 1 / cos of
   * the column's angle from the view's centre on screen, and of the bearing
   * (in degrees, read as maze units) off screen.
   */
  lemma FisheyeDivisorIsSecant(math: PropMath, fish: seq<real>, col: int, ang: real)
    requires |fish| == ANGLE60 + 1
    requires forall k :: 0 <= k <= ANGLE60 ==> fish[k] == Div(1.0, math.host.cos(ArcToRad(math.host, (k - ANGLE30) as real)))
    ensures 0 <= col < 320 ==>
              FisheyeDivisor(math, fish, col, ang) == Div(1.0, math.host.cos(ArcToRad(math.host, (col - 160) as real)))
    ensures !(0 <= col < 320) ==>
              FisheyeDivisor(math, fish, col, ang) == Div(1.0, math.host.cos(ArcToRad(math.host, ang)))
  {
    AngleValues();
  }

  /** `setPropHitItemData`: what it stores, None when it returns early, or the exception it throws. */
  function Placement(math: PropMath, fish: seq<real>, m: MapData.MapGrid, mapPos: int,
                     playerX: real, playerY: real, playerArc: int): (r: Outcome<Option<PropPlacement>>)
    requires |fish| == ANGLE60 + 1
  {
    var (x2, y2) := PropCentre(m, mapPos);
    var dist := PropDistance(math, playerX - x2 as real, playerY - y2 as real);
    match Bearing(math, playerX, playerY, x2 as real, y2 as real)
    case Throws(e) => Throws(e)
    case Returns(None) => Returns(None)
    case Returns(Some(ang)) =>
      var (arc, bearing) := Unwrap(playerArc, MazeUnits(ang));
      var col := MidColumn(arc, bearing);
      Returns(Some(PropPlacement(Div(dist, FisheyeDivisor(math, fish, col, ang)), col)))
  }

  /**
   * The outcomes of `setPropHitItemData`: it stores nothing exactly when the
   * player is on the prop's centre, throws exactly when the prop is off both
   * axes and radToDegrees is missing, and otherwise stores the corrected
   * distance and the column of the unwrapped bearing.
   */
  lemma PlacementOutcomes(math: PropMath, fish: seq<real>, m: MapData.MapGrid, mapPos: int,
                          playerX: real, playerY: real, playerArc: int)
    requires |fish| == ANGLE60 + 1
    ensures var (x2, y2) := PropCentre(m, mapPos);
            var r := Placement(math, fish, m, mapPos, playerX, playerY, playerArc);
            (r == Returns(None) <==> playerX == x2 as real && playerY == y2 as real)
            && (r.Throws? <==> playerX != x2 as real && playerY != y2 as real && math.radToDegrees.None?)
            && (r.Returns? && r.value.Some? ==>
                  var ang := Bearing(math, playerX, playerY, x2 as real, y2 as real).value.value;
                  var (arc, bearing) := Unwrap(playerArc, MazeUnits(ang));
                  r.value.value.colMidProp == MidColumn(arc, bearing)
                  && r.value.value.dist == Div(PropDistance(math, playerX - x2 as real, playerY - y2 as real),
                                               FisheyeDivisor(math, fish, r.value.value.colMidProp, ang)))
  {
  }

  /** A prop due east of a player facing east (arc 0) sits on the centre column, at its distance. */
  lemma {:induction false} DueEastAhead(math: PropMath, fish: seq<real>, m: MapData.MapGrid, mapPos: int,
                                        playerX: real)
    requires |fish| == ANGLE60 + 1 && fish[ANGLE30] == 1.0
    requires playerX < PropCentre(m, mapPos).0 as real
    ensures var y := PropCentre(m, mapPos).1 as real;
            Placement(math, fish, m, mapPos, playerX, y, ANGLE0)
              == Returns(Some(PropPlacement(PropCentre(m, mapPos).0 as real - playerX, 160)))
  {
    AngleValues();
    AxisBearingsInMazeUnits();
    MidColumnOffset(0, 0);
  }

  /** A prop: its tile, and the distance and column the last placement stored (-1 before any). */
  class PropHitItem {
    var mapPos: int
    var dist: real
    var colMidProp: int
    const trig: TrigTables

    ghost predicate Valid()
      reads this, trig
    {
      trig.Valid()
    }

    constructor (mapPos: int, trig: TrigTables)
      requires trig.Valid()
      ensures Valid()
      ensures this.mapPos == mapPos && this.trig == trig
      ensures dist == -1.0 && colMidProp == -1
    {
      this.mapPos := mapPos;
      this.dist := -1.0;
      this.colMidProp := -1;
      this.trig := trig;
    }

    /**
     * `setPropHitItemData(mapData, playerX, playerY, playerArc)`: stores the
     * prop's distance and mid-point column, leaves both unchanged when the
     * player is on the prop's centre, and reports the exception it throws.
     */
    method SetPropHitItemData(math: PropMath, mapData: MapData.MapGrid, playerX: real, playerY: real, playerArc: int)
      returns (thrown: Option<JsError>)
      requires Valid()
      modifies this
      ensures Valid() && mapPos == old(mapPos)
      ensures match Placement(math, trig.fishTable[..], mapData, mapPos, playerX, playerY, playerArc)
              case Throws(e) => thrown == Some(e) && dist == old(dist) && colMidProp == old(colMidProp)
              case Returns(None) => thrown == None && dist == old(dist) && colMidProp == old(colMidProp)
              case Returns(Some(p)) => thrown == None && dist == p.dist && colMidProp == p.colMidProp
    {
      var x1 := playerX;
      var y1 := playerY;

      var x2, y2 := MidPointOf(mapData, mapPos);

      var dist := DistanceBetween(math, x1 - x2 as real, y1 - y2 as real);
      var bearing := BearingOf(math, x1, y1, x2 as real, y2 as real);
      PlacementFromBearing(math, trig.fishTable[..], mapData, mapPos, playerX, playerY, playerArc);
      ghost var placement := Placement(math, trig.fishTable[..], mapData, mapPos, playerX, playerY, playerArc);
      if bearing.Throws? {
        assert placement == Throws(bearing.error);
        return Some(bearing.error);
      }
      if bearing.value.None? {
        assert placement == Returns(None);
        return None;
      }
      var ang := bearing.value.value;
      var colMidPropTemp := ColumnOf(playerArc, ang);
      dist := FisheyeCorrected(math, trig.fishTable, dist, colMidPropTemp, ang);
      assert placement == Returns(Some(PropPlacement(dist, colMidPropTemp)));

      this.dist := dist;
      this.colMidProp := colMidPropTemp;
      thrown := None;
    }

    /** Lines 80-83 of `setPropHitItemData`: the distance divided by the fish-eye divisor. */
    static method FisheyeCorrected(math: PropMath, fishTable: array<real>, dist: real, colMidPropTemp: int, ang: real)
      returns (r: real)
      requires fishTable.Length == ANGLE60 + 1
      ensures r == Div(dist, FisheyeDivisor(math, fishTable[..], colMidPropTemp, ang))
    {
      AngleValues();
      if 0 <= colMidPropTemp < MazeGlobals.ProjectionPlaneWidth {
        r := Div(dist, fishTable[colMidPropTemp]);     // a column on the plane takes its factor from the table
      } else {
        r := Div(dist, Div(1.0, math.host.cos(ArcToRad(math.host, ang))));
      }
    }

    /** Lines 37-41 of `setPropHitItemData`: the centre of the prop's tile. */
    static method MidPointOf(mapData: MapData.MapGrid, mapPos: int) returns (x2: int, y2: int)
      ensures (x2, y2) == PropCentre(mapData, mapPos)
    {
      var row := Sar(mapPos, mapData.mapWidthShift);
      var col: Option<int> := if mapData.mapWidth == 0 then None else Some(Rem(ToInt32(mapPos), mapData.mapWidth));
      x2 := TileMiddle(col);
      y2 := TileMiddle(Some(row));
    }

    /** Lines 44-48 of `setPropHitItemData`: the distance before the fish-eye correction. */
    static method DistanceBetween(math: PropMath, xRel: real, yRel: real) returns (dist: real)
      ensures dist == PropDistance(math, xRel, yRel)
    {
      dist := 0.0;
      if 0.0 == yRel {
        dist := Abs(xRel);
      } else {
        dist := Tilde(math.sqrt(Abs(xRel * xRel + yRel * yRel))) as real;
      }
    }

    /** Lines 51-68 of `setPropHitItemData`: the bearing in degrees, the early return, or the exception. */
    static method BearingOf(math: PropMath, x1: real, y1: real, x2: real, y2: real) returns (r: Outcome<Option<real>>)
      ensures r == Bearing(math, x1, y1, x2, y2)
    {
      var ang: real := 0.0;
      if y1 == y2 && x1 - x2 < 0.0 {
        ang := 0.0;
      } else if x1 == x2 && y1 - y2 < 0.0 {
        ang := 90.0;
      } else if y1 == y2 && x1 - x2 > 0.0 {
        ang := 180.0;
      } else if x1 == x2 && y1 - y2 > 0.0 {
        ang := 270.0;
      } else {
        var supAng: real := 0.0;
        if x1 < x2 && y1 < y2 {
          supAng := 0.0;
        } else if x1 > x2 && y1 < y2 {
          supAng := 180.0;
        } else if x1 > x2 && y1 > y2 {
          supAng := 180.0;
        } else if x1 < x2 && y1 > y2 {
          supAng := 360.0;
        } else {
          return Returns(None);
        }
        var angleRad := math.atan(Div(y1 - y2, x1 - x2));
        if math.radToDegrees.None? {
          return Throws(TypeError);
        }
        var angleDegrees := math.radToDegrees.value(angleRad);
        ang := angleDegrees + supAng;
      }
      return Returns(Some(ang));
    }

    /** Lines 69-77 of `setPropHitItemData`: the bearing in maze units, the seam adjustment and the column. */
    static method ColumnOf(playerArc: int, ang: real) returns (colMidPropTemp: int)
      ensures var (arc, bearing) := Unwrap(playerArc, MazeUnits(ang));
              colMidPropTemp == MidColumn(arc, bearing)
    {
      var angMazeUnits := Tilde(ang * ANGLE60 as real / 60.0);

      // an arc past ANGLE270 and one below ANGLE90 straddle 0: shift one of them by a full turn
      var playerArcTemp := playerArc;
      if playerArcTemp > ANGLE270 && angMazeUnits < ANGLE90 {
        playerArcTemp := playerArcTemp - ANGLE360;
      }
      if angMazeUnits > ANGLE270 && playerArcTemp < ANGLE90 {
        angMazeUnits := angMazeUnits - ANGLE360;
      }
      colMidPropTemp := ToInt32(Sar(MazeGlobals.ProjectionPlaneWidth, 1) - (playerArcTemp - angMazeUnits));
    }
  }

  /** `Placement` by the bearing's outcome, one case at a time. */
  lemma PlacementFromBearing(math: PropMath, fish: seq<real>, m: MapData.MapGrid, mapPos: int,
                             playerX: real, playerY: real, playerArc: int)
    requires |fish| == ANGLE60 + 1
    ensures var (x2, y2) := PropCentre(m, mapPos);
            var b := Bearing(math, playerX, playerY, x2 as real, y2 as real);
            var r := Placement(math, fish, m, mapPos, playerX, playerY, playerArc);
            (b.Throws? ==> r == Throws(b.error))
            && (b == Returns(None) ==> r == Returns(None))
            && (b.Returns? && b.value.Some? ==>
                  var (arc, bearing) := Unwrap(playerArc, MazeUnits(b.value.value));
                  var col := MidColumn(arc, bearing);
                  r == Returns(Some(PropPlacement(Div(PropDistance(math, playerX - x2 as real, playerY - y2 as real),
                                                      FisheyeDivisor(math, fish, col, b.value.value)), col))))
  {
  }
}

// Angle units and the precomputed trigonometry tables of the raycaster.
//
// Angles are measured in "maze units": the 60-degree field of view spans the
// 320 columns of the projection plane, so a full turn is 1920 units. The
// host's Math.sin, Math.cos, Math.tan and Math.PI are parameters; the model
// fixes how the tables are sized, indexed and sign-corrected, not the values
// the host returns.
module Trig {
  import opened Js
  import MazeGlobals

  /** Math.round: the nearest integer, halves rounding up. */
  function Round(x: real): (r: int)
    ensures r as real - 0.5 <= x < r as real + 0.5
  {
    (x + 0.5).Floor
  }

  const ANGLE60: int := MazeGlobals.ProjectionPlaneWidth
  const ANGLE30: int := Round(ANGLE60 as real / 2.0)
  const ANGLE90: int := Round(ANGLE30 as real * 3.0)
  const ANGLE180: int := Round(ANGLE90 as real * 2.0)
  const ANGLE270: int := Round(ANGLE90 as real * 3.0)
  const ANGLE360: int := Round(ANGLE60 as real * 6.0)
  const ANGLE0: int := 0
  const ANGLE5: int := Round(ANGLE30 as real / 6.0)
  const ANGLE10: int := ANGLE5 * 2
  const ANGLE45: int := ANGLE5 + ANGLE10 + ANGLE10 + ANGLE10 + ANGLE10
  const ANGLE135: int := ANGLE90 + ANGLE45
  const ANGLE225: int := ANGLE180 + ANGLE45
  const ANGLE315: int := ANGLE270 + ANGLE45
  const ANGLE85: int := ANGLE90 - ANGLE5
  const ANGLE95: int := ANGLE90 + ANGLE5
  const ANGLE265: int := ANGLE270 - ANGLE5
  const ANGLE275: int := ANGLE270 + ANGLE5
  const ANGLE355: int := ANGLE360 - ANGLE5
  const ANGLE175: int := ANGLE180 - ANGLE5
  const ANGLE185: int := ANGLE180 + ANGLE5

  /** The values the rounding produces. */
  lemma AngleValues()
    ensures ANGLE60 == 320 && ANGLE30 == 160 && ANGLE90 == 480 && ANGLE180 == 960
    ensures ANGLE270 == 1440 && ANGLE360 == 1920 && ANGLE360 == 6 * ANGLE60
    ensures ANGLE5 == 27 && ANGLE10 == 54 && ANGLE45 == 243
    ensures ANGLE135 == 723 && ANGLE225 == 1203 && ANGLE315 == 1683
    ensures ANGLE85 == 453 && ANGLE95 == 507 && ANGLE265 == 1413 && ANGLE275 == 1467
    ensures ANGLE355 == 1893 && ANGLE175 == 933 && ANGLE185 == 987
  {
  }

  /** The host's floating-point functions. */
  datatype MathHost = MathHost(sin: real -> real, cos: real -> real, tan: real -> real, pi: real)

  /** `arcToRad(a)`: maze units to radians. */
  function ArcToRad(host: MathHost, arcAngle: real): real
  {
    1.0 * (arcAngle * host.pi) / (ANGLE180 as real)
  }

  /** The radian value the first table loop feeds to the host, nudged by 0.0001. */
  function TableRadian(host: MathHost, i: int): real
  {
    ArcToRad(host, i as real) + 0.0001
  }

  function Abs(x: real): real { if x < 0.0 then -x else x }

  /** Angles in the west half of the aerial map, where a ray's x decreases. */
  predicate FacesWest(i: int) { ANGLE90 <= i < ANGLE270 }

  /** Angles in the lower half of the aerial map, where a ray's y increases. */
  predicate FacesDown(i: int) { ANGLE0 <= i < ANGLE180 }

  /**
   * Entry i of the x-step table: how far x moves while y moves one tile,
   * 64 / tan, with its sign forced to the ray's x direction.
   */
  function XStep(i: int, tan: real): (r: real)
    ensures FacesWest(i) ==> r <= 0.0
    ensures !FacesWest(i) ==> r >= 0.0
    ensures Abs(r) == Abs(Div(1.0 * MazeGlobals.TileSize as real, tan))
  {
    var step := Div(1.0 * MazeGlobals.TileSize as real, tan);
    if FacesWest(i) then (if step > 0.0 then -step else step)
    else (if step < 0.0 then -step else step)
  }

  /**
   * Entry i of the y-step table: how far y moves while x moves one tile,
   * 64 * tan, with its sign forced to the ray's y direction.
   */
  function YStep(i: int, tan: real): (r: real)
    ensures FacesDown(i) ==> r >= 0.0
    ensures !FacesDown(i) ==> r <= 0.0
    ensures Abs(r) == Abs(1.0 * MazeGlobals.TileSize as real * tan)
  {
    var step := 1.0 * MazeGlobals.TileSize as real * tan;
    if FacesDown(i) then (if step < 0.0 then -step else step)
    else (if step > 0.0 then -step else step)
  }

  /**
   * `Trig.degreesToMazeAngleUnits(d)`: `~~((320 * d) / 60)`; on the range the
   * configuration files use it is the whole part of 16 * d / 3.
   */
  function DegreesToMazeAngleUnits(degreesAngle: real): (r: int)
    ensures 0.0 <= degreesAngle < 100000000.0 ==>
              0 <= r && r as real <= 16.0 * degreesAngle / 3.0 < r as real + 1.0
  {
    Tilde((MazeGlobals.ProjectionPlaneWidth as real * degreesAngle) / 60.0)
  }

  /** 60 degrees is the field of view, ANGLE60, and 360 degrees is ANGLE360. */
  lemma DegreesLandmarks()
    ensures DegreesToMazeAngleUnits(60.0) == ANGLE60
    ensures DegreesToMazeAngleUnits(360.0) == ANGLE360
    ensures DegreesToMazeAngleUnits(45.0) == 240
  {
    AngleValues();
  }

  /** The conversion never goes down as the angle goes up (within the 32-bit range of `~~`). */
  lemma DegreesMonotone(d1: real, d2: real)
    requires 0.0 <= d1 <= d2 < 100000000.0
    ensures DegreesToMazeAngleUnits(d1) <= DegreesToMazeAngleUnits(d2)
  {
    var r1, r2 := DegreesToMazeAngleUnits(d1), DegreesToMazeAngleUnits(d2);
    assert r1 as real <= 16.0 * d1 / 3.0 <= 16.0 * d2 / 3.0 < r2 as real + 1.0;
  }

  /** Whole degrees 0..359 land inside one turn. */
  lemma DegreesInOneTurn(d: int)
    requires 0 <= d <= 359
    ensures 0 <= DegreesToMazeAngleUnits(d as real) < ANGLE360
  {
    AngleValues();
    var r := DegreesToMazeAngleUnits(d as real);
    assert r as real <= 16.0 * (d as real) / 3.0 <= 16.0 * 359.0 / 3.0;
  }

  /**
   * The nine lookup tables. Each of the per-angle tables has ANGLE360 + 1
   * entries, indexed by the angle; the fisheye table has ANGLE60 + 1 entries,
   * indexed by the angle relative to the view centre plus ANGLE30.
   */
  class TrigTables {
    var sinTable: array<real>
    var iSinTable: array<real>
    var cosTable: array<real>
    var iCosTable: array<real>
    var tanTable: array<real>
    var iTanTable: array<real>
    var fishTable: array<real>
    var xStepTable: array<real>
    var yStepTable: array<real>

    ghost predicate Valid()
      reads this
    {
      sinTable.Length == ANGLE360 + 1 && iSinTable.Length == ANGLE360 + 1
      && cosTable.Length == ANGLE360 + 1 && iCosTable.Length == ANGLE360 + 1
      && tanTable.Length == ANGLE360 + 1 && iTanTable.Length == ANGLE360 + 1
      && xStepTable.Length == ANGLE360 + 1 && yStepTable.Length == ANGLE360 + 1
      && fishTable.Length == ANGLE60 + 1
    }

    /** `createTables()`: fills every table from the host's functions. */
    constructor (host: MathHost)
      ensures Valid()
      ensures fresh(sinTable) && fresh(iSinTable) && fresh(cosTable) && fresh(iCosTable)
      ensures fresh(tanTable) && fresh(iTanTable) && fresh(fishTable) && fresh(xStepTable) && fresh(yStepTable)
      ensures forall i :: 0 <= i <= ANGLE360 ==>
                sinTable[i] == host.sin(TableRadian(host, i)) && iSinTable[i] == Div(1.0, sinTable[i])
      ensures forall i :: 0 <= i <= ANGLE360 ==>
                cosTable[i] == host.cos(TableRadian(host, i)) && iCosTable[i] == Div(1.0, cosTable[i])
      ensures forall i :: 0 <= i <= ANGLE360 ==>
                tanTable[i] == host.tan(TableRadian(host, i)) && iTanTable[i] == Div(1.0, tanTable[i])
      ensures forall i :: 0 <= i <= ANGLE360 ==>
                xStepTable[i] == XStep(i, tanTable[i]) && yStepTable[i] == YStep(i, tanTable[i])
      ensures forall k :: 0 <= k <= ANGLE60 ==>
                fishTable[k] == Div(1.0, host.cos(ArcToRad(host, (k - ANGLE30) as real)))
    {
      var sinT, iSinT := FillTable(host, host.sin);
      var cosT, iCosT := FillTable(host, host.cos);
      var tanT, iTanT := FillTable(host, host.tan);
      var xStepT, yStepT := FillSteps(tanT);
      var fishT := FillFish(host);
      sinTable, iSinTable, cosTable, iCosTable := sinT, iSinT, cosT, iCosT;
      tanTable, iTanTable, fishTable, xStepTable, yStepTable := tanT, iTanT, fishT, xStepT, yStepT;
    }

    /** One function's table and its reciprocal table, for every angle 0..ANGLE360. */
    static method FillTable(host: MathHost, f: real -> real) returns (t: array<real>, inv: array<real>)
      ensures fresh(t) && fresh(inv) && t.Length == ANGLE360 + 1 && inv.Length == ANGLE360 + 1
      ensures forall i :: 0 <= i <= ANGLE360 ==> t[i] == f(TableRadian(host, i)) && inv[i] == Div(1.0, t[i])
    {
      AngleValues();
      t := new real[ANGLE360 + 1];
      inv := new real[ANGLE360 + 1];
      var i := 0;
      while i <= ANGLE360
        invariant 0 <= i <= ANGLE360 + 1
        invariant forall j :: 0 <= j < i ==> t[j] == f(TableRadian(host, j)) && inv[j] == Div(1.0, t[j])
      {
        t[i] := f(TableRadian(host, i));
        inv[i] := Div(1.0, t[i]);
        i := i + 1;
      }
    }

    /** The two step tables, from the tangent table, with the quadrant signs forced. */
    static method FillSteps(tanT: array<real>) returns (xs: array<real>, ys: array<real>)
      requires tanT.Length == ANGLE360 + 1
      ensures fresh(xs) && fresh(ys) && xs.Length == ANGLE360 + 1 && ys.Length == ANGLE360 + 1
      ensures forall i :: 0 <= i <= ANGLE360 ==> xs[i] == XStep(i, tanT[i]) && ys[i] == YStep(i, tanT[i])
    {
      AngleValues();
      xs := new real[ANGLE360 + 1];
      ys := new real[ANGLE360 + 1];
      var i := 0;
      while i <= ANGLE360
        invariant 0 <= i <= ANGLE360 + 1
        invariant forall j :: 0 <= j < i ==> xs[j] == XStep(j, tanT[j]) && ys[j] == YStep(j, tanT[j])
      {
        xs[i] := XStep(i, tanT[i]);
        ys[i] := YStep(i, tanT[i]);
        i := i + 1;
      }
    }

    /** The fisheye-correction table for the relative angles -ANGLE30..ANGLE30. */
    static method FillFish(host: MathHost) returns (fish: array<real>)
      ensures fresh(fish) && fish.Length == ANGLE60 + 1
      ensures forall k :: 0 <= k <= ANGLE60 ==> fish[k] == Div(1.0, host.cos(ArcToRad(host, (k - ANGLE30) as real)))
    {
      AngleValues();
      fish := new real[ANGLE60 + 1];
      var i := -ANGLE30;
      while i <= ANGLE30
        invariant -ANGLE30 <= i <= ANGLE30 + 1
        invariant forall k :: 0 <= k < i + ANGLE30 ==> fish[k] == Div(1.0, host.cos(ArcToRad(host, (k - ANGLE30) as real)))
      {
        fish[i + ANGLE30] := Div(1.0, host.cos(ArcToRad(host, i as real)));
        i := i + 1;
      }
    }
  }

  /** The fisheye table's centre entry corrects nothing when the host's cos(0) is 1. */
  lemma FishCentre(host: MathHost, centre: real)
    requires centre == Div(1.0, host.cos(ArcToRad(host, 0.0)))
    requires host.cos(0.0) == 1.0
    ensures centre == 1.0
  {
    assert ArcToRad(host, 0.0) == 0.0;
  }
}

// The maze configuration: traps and destinations read from the sections
// "Trap<n>" and "Dest<n>" of the parsed configuration INI object, with every
// numeric value range-checked against a default.
//
// The functions below take the parsed object (the configuration's `iniObj`)
// and the configuration's own map size as parameters; `getTrap` and
// `getDest` also receive a map size as arguments, and the two are kept apart
// because the code uses each in different places.
module MazeConfig {
  import opened Js
  import opened JsText
  import opened IniFile
  import Trig
  import opened Traps
  import opened Dests

  /** `iniObj[section][key]`: a TypeError when the section is missing, undefined (None) for a missing key. */
  function Lookup(ini: IniObj, section: string, key: string): (r: Outcome<Option<string>>)
    ensures r.Throws? <==> section !in ini
    ensures r.Throws? ==> r.error == TypeError
    ensures r.Returns? && r.value.Some? ==> ini[section].Section? && key in ini[section].entries
  {
    if section !in ini then Throws(TypeError)
    else
      var v := ini[section];
      Returns(if v.Section? && key in v.entries then Some(v.entries[key]) else None)
  }

  /**
   * The value `getValueCheckingRange` hands back, read as a number (None is
   * NaN), and whether it reported an out-of-range value.
   */
  datatype Checked = Checked(value: Option<int>, reported: bool)

  /**
   * `getValueCheckingRange(section, key, default, low, high)`. A missing key
   * gives the default. A value from the file that lies outside [low, high]
   * is reported and replaced by the default; one that reads as NaN fails
   * both comparisons and is passed on. The default itself is never reported,
   * because a value from the file is a string and never `===` the number.
   */
  function GetValueCheckingRange(ini: IniObj, section: string, key: string,
                                 defaultVal: int, lowEnd: int, highEnd: int): (r: Outcome<Checked>)
    ensures r.Throws? <==> section !in ini
    ensures r.Throws? ==> r.error == TypeError
    ensures Lookup(ini, section, key) == Returns(None) ==> r == Returns(Checked(Some(defaultVal), false))
    ensures Lookup(ini, section, key).Returns? && Lookup(ini, section, key).value.Some? ==>
      var v := ParseIntDec(Lookup(ini, section, key).value.value);
      if v.Some? && (v.value > highEnd || v.value < lowEnd)
      then r == Returns(Checked(Some(defaultVal), true))
      else r == Returns(Checked(v, false))
  {
    match Lookup(ini, section, key)
    case Throws(e) => Throws(e)
    case Returns(raw) =>
      if raw.None? then Returns(Checked(Some(defaultVal), false))
      else
        var v := ParseIntDec(raw.value);
        if v.Some? && (v.value > highEnd || v.value < lowEnd) then Returns(Checked(Some(defaultVal), true))
        else Returns(Checked(v, false))
  }

  /** Every value handed back is NaN, inside [low, high] or the default, and only the default follows a report. */
  lemma CheckedInRangeOrDefault(ini: IniObj, section: string, key: string, defaultVal: int, lowEnd: int, highEnd: int)
    requires section in ini
    ensures var r := GetValueCheckingRange(ini, section, key, defaultVal, lowEnd, highEnd);
      && r.Returns?
      && (r.value.value.None? || lowEnd <= r.value.value.value <= highEnd || r.value.value == Some(defaultVal))
      && (r.value.reported ==> r.value.value == Some(defaultVal))
  {
  }

  /** A value written in the file as a decimal number inside the range is handed back unchanged and not reported. */
  lemma InRangeValueKept(ini: IniObj, section: string, key: string, defaultVal: int, lowEnd: int, highEnd: int, n: int)
    requires section in ini && ini[section].Section?
    requires key in ini[section].entries && ini[section].entries[key] == IntToString(n)
    requires lowEnd <= n <= highEnd
    ensures GetValueCheckingRange(ini, section, key, defaultVal, lowEnd, highEnd) == Returns(Checked(Some(n), false))
  {
    ParseIntOfInt(n);
  }

  /** `parseInt(tile, 10) * TILE_SIZE + parseInt(offset, 10)`, NaN when either part is. */
  function Side(tile: Option<int>, offset: Option<int>): (r: Option<int>)
    ensures r.Some? <==> tile.Some? && offset.Some?
    ensures r.Some? ==> r.value == tile.value * 64 + offset.value
  {
    NumAdd(if tile.Some? then Some(tile.value * 64) else None, offset)
  }

  /** The section a trap is read from. */
  function TrapSection(num: int): string { "Trap" + IntToString(num) }

  /** The section a destination is read from. */
  function DestSection(num: int): string { "Dest" + IntToString(num) }

  /** A value of a section known to exist (an abbreviation used below). */
  function Value(ini: IniObj, section: string, key: string, defaultVal: int, lowEnd: int, highEnd: int): Option<int>
  {
    var r := GetValueCheckingRange(ini, section, key, defaultVal, lowEnd, highEnd);
    if r.Returns? then r.value.value else None
  }

  /**
   * The record `getTrap` builds, every statement except the one that
   * throws: the left side is checked against the configuration's own map
   * width, the right side against the width passed in.
   */
  function TrapRecord(ini: IniObj, configMapWidth: int, num: int, mapWidth: int, mapHeight: int, numDests: int): (r: Outcome<Trap>)
    ensures r.Throws? <==> TrapSection(num) !in ini
    ensures r.Throws? ==> r.error == TypeError
    ensures r.Returns? ==>
      var t := r.value;
      && (t.usingDest <==> t.gotoDest != Some(-1))
      && !t.usingSound
      && (t.usingOverlay <==> |t.overlayFile| > 0)
  {
    var section := TrapSection(num);
    if section !in ini then Throws(TypeError)
    else
      var leftTile := Value(ini, section, "LeftTile", 15, 0, configMapWidth - 1);
      var rightTile := Value(ini, section, "RightTile", 16, 0, mapWidth - 1);
      var topTile := Value(ini, section, "TopTile", 15, 0, mapHeight - 1);
      var bottomTile := Value(ini, section, "BottomTile", 16, 0, mapHeight - 1);
      var leftOffset := Value(ini, section, "LeftTileOffset", 0, 0, 63);
      var rightOffset := Value(ini, section, "RightTileOffset", 0, 0, 63);
      var topOffset := Value(ini, section, "TopTileOffset", 0, 0, 63);
      var bottomOffset := Value(ini, section, "BottomTileOffset", 0, 0, 63);
      var gotoDest := Value(ini, section, "GotoDest", -1, 0, numDests - 1);
      var soundFile := Lookup(ini, section, "SoundEffect").value;
      var overlay := Lookup(ini, section, "Overlay").value;
      var overlayFile := if overlay.None? then "" else overlay.value;
      Returns(Trap(
        Side(leftTile, leftOffset), Side(rightTile, rightOffset),
        Side(topTile, topOffset), Side(bottomTile, bottomOffset),
        gotoDest != Some(-1), gotoDest,
        |overlayFile| > 0, overlayFile,
        false, soundFile))
  }

  /**
   * `getTrap(num, mapWidth, mapHeight, numDests)` as written: it sets a
   * property on the string `trap.overlayFile` in strict mode, which throws a
   * TypeError, so it never returns a trap.
   */
  function GetTrap(ini: IniObj, configMapWidth: int, num: int, mapWidth: int, mapHeight: int, numDests: int): (r: Outcome<Trap>)
    ensures r == Throws(TypeError)
  {
    match TrapRecord(ini, configMapWidth, num, mapWidth, mapHeight, numDests)
    case Throws(e) => Throws(e)
    case Returns(_) => Throws(TypeError)
  }

  /** A side of a trap or a destination position: NaN, or in a tile allowed by the range or the default tile. */
  predicate SideInTile(side: Option<int>, defaultTile: int, highTile: int) {
    side.None? || (side.value % 64 < 64 && (0 <= side.value / 64 <= highTile || side.value / 64 == defaultTile))
  }

  /** `tile * 64 + offset` with offset in [0, 63] lies in the given tile. */
  lemma SideTile(tile: int, offset: int)
    requires 0 <= offset <= 63
    ensures (tile * 64 + offset) / 64 == tile
  {
  }

  lemma SideFromChecked(tile: Option<int>, offset: Option<int>, defaultTile: int, highTile: int)
    requires tile.None? || 0 <= tile.value <= highTile || tile.value == defaultTile
    requires offset.None? || 0 <= offset.value <= 63
    ensures SideInTile(Side(tile, offset), defaultTile, highTile)
  {
    if tile.Some? && offset.Some? { SideTile(tile.value, offset.value); }
  }

  /**
   * Each trap side is tile * 64 + offset with its tile checked against the
   * map size (or the default tile 15 or 16) and its offset against [0, 63].
   */
  lemma {:induction false} TrapSidesInTiles(ini: IniObj, configMapWidth: int, num: int, mapWidth: int, mapHeight: int, numDests: int)
    requires TrapSection(num) in ini
    ensures var r := TrapRecord(ini, configMapWidth, num, mapWidth, mapHeight, numDests);
      && r.Returns?
      && SideInTile(r.value.leftSide, 15, configMapWidth - 1)
      && SideInTile(r.value.rightSide, 16, mapWidth - 1)
      && SideInTile(r.value.topSide, 15, mapHeight - 1)
      && SideInTile(r.value.bottomSide, 16, mapHeight - 1)
  {
    var s := TrapSection(num);
    CheckedSide(ini, s, "LeftTile", "LeftTileOffset", 15, configMapWidth - 1);
    CheckedSide(ini, s, "RightTile", "RightTileOffset", 16, mapWidth - 1);
    CheckedSide(ini, s, "TopTile", "TopTileOffset", 15, mapHeight - 1);
    CheckedSide(ini, s, "BottomTile", "BottomTileOffset", 16, mapHeight - 1);
  }

  /** A side read as a checked tile in [0, highTile] and a checked offset in [0, 63] lies in an allowed tile. */
  lemma CheckedSide(ini: IniObj, s: string, tileKey: string, offsetKey: string, defaultTile: int, highTile: int)
    requires s in ini
    ensures SideInTile(Side(Value(ini, s, tileKey, defaultTile, 0, highTile), Value(ini, s, offsetKey, 0, 0, 63)), defaultTile, highTile)
  {
    CheckedInRangeOrDefault(ini, s, tileKey, defaultTile, 0, highTile);
    CheckedInRangeOrDefault(ini, s, offsetKey, 0, 0, 63);
    SideFromChecked(Value(ini, s, tileKey, defaultTile, 0, highTile), Value(ini, s, offsetKey, 0, 0, 63), defaultTile, highTile);
  }

  /**
   * An empty trap section on an 8 by 8 map: the default tiles 15 and 16 lie
   * outside the map and are kept without a report, so the trap spans
   * 960..1024 on both axes; it goes nowhere and has no overlay or sound file.
   */
  lemma EmptyTrapSection(ini: IniObj, num: int, numDests: int)
    requires TrapSection(num) in ini && ini[TrapSection(num)] == Section(map[])
    ensures TrapRecord(ini, 8, num, 8, 8, numDests) ==
      Returns(Trap(Some(960), Some(1024), Some(960), Some(1024), false, Some(-1), false, "", false, None))
  {
  }

  /** The sentinel `getDest` uses for a missing colour value. */
  const MissingValue: int := -11

  /** `~~(320 * parseInt(v, 10) / 60)`: `~~NaN` is 0. */
  function AngleUnits(degrees: Option<int>): (r: int)
    ensures degrees.None? ==> r == 0
    ensures degrees.Some? ==> r == Trig.DegreesToMazeAngleUnits(degrees.value as real)
  {
    if degrees.None? then 0 else Trig.DegreesToMazeAngleUnits(degrees.value as real)
  }

  /** A colour value as stored: the sentinel becomes the channel's own default, anything else (NaN too) is kept. */
  function Colour(v: Option<int>, fallback: int): (r: Option<int>)
    ensures v == Some(MissingValue) ==> r == Some(fallback)
    ensures v != Some(MissingValue) ==> r == v
  {
    if v == Some(MissingValue) then Some(fallback) else v
  }

  /** The twelve colour and step values of a section, in the order sky RGB, sky steps, ground RGB, ground steps. */
  function ColourValues(ini: IniObj, section: string): (vs: seq<Option<int>>)
    ensures |vs| == 12
  {
    [ Value(ini, section, "SkyRed", MissingValue, 0, 255),
      Value(ini, section, "SkyGreen", MissingValue, 0, 255),
      Value(ini, section, "SkyBlue", MissingValue, 0, 255),
      Value(ini, section, "SkyRedStep", MissingValue, -10, 10),
      Value(ini, section, "SkyGreenStep", MissingValue, -10, 10),
      Value(ini, section, "SkyBlueStep", MissingValue, -10, 10),
      Value(ini, section, "GroundRed", MissingValue, 0, 255),
      Value(ini, section, "GroundGreen", MissingValue, 0, 255),
      Value(ini, section, "GroundBlue", MissingValue, 0, 255),
      Value(ini, section, "GroundRedStep", MissingValue, -10, 10),
      Value(ini, section, "GroundGreenStep", MissingValue, -10, 10),
      Value(ini, section, "GroundBlueStep", MissingValue, -10, 10) ]
  }

  /** The channel defaults, in the order of ColourValues. */
  const ColourDefaults: seq<int> := [40, 125, 225, 2, 0, 0, 100, 80, 40, 1, 1, 1]

  /** The colour and step fields of a destination, in the order of ColourValues. */
  function ColourFields(d: Dest): (vs: seq<Option<int>>)
    ensures |vs| == 12
  {
    [d.skyRed, d.skyGreen, d.skyBlue, d.skyRedStep, d.skyGreenStep, d.skyBlueStep,
     d.groundRed, d.groundGreen, d.groundBlue, d.groundRedStep, d.groundGreenStep, d.groundBlueStep]
  }

  /**
   * `getDest(num, …)`: position and angle from the configuration's own map
   * size, then the landscape and background fields.
   */
  function GetDest(ini: IniObj, configMapWidth: int, configMapHeight: int, num: int): (r: Outcome<Dest>)
    ensures r.Throws? <==> DestSection(num) !in ini
    ensures r.Throws? ==> r.error == TypeError
    ensures r.Returns? ==>
      var d := r.value;
      && (d.usingALandscape <==> !d.useExistingLandscape)
      && (d.backgroundFromFile <==> |d.backgroundFile| > 0)
      && (d.backgroundFromRGB <==> !d.backgroundFromFile)
      && (d.useExistingBackground ==> d.backgroundFromRGB)
  {
    var section := DestSection(num);
    if section !in ini then Throws(TypeError)
    else
      var xTile := Value(ini, section, "XTile", 10, 0, configMapWidth - 1);
      var yTile := Value(ini, section, "YTile", 10, 0, configMapHeight - 1);
      var xOffset := Value(ini, section, "XTileOffset", 0, 0, 63);
      var yOffset := Value(ini, section, "YTileOffset", 0, 0, 63);
      var angle := Value(ini, section, "Angle", -1, 0, 359);
      var useExistingAngle := angle == Some(-1);
      var angleUnits := AngleUnits(if useExistingAngle then Some(45) else angle);

      var landscape := Lookup(ini, section, "Landscape").value;
      var landscapeFile := if landscape.None? then "" else landscape.value;
      var usingALandscape := |landscapeFile| > 0;
      var offsetRaw := Lookup(ini, section, "LandscapeOffsetFromTop").value;
      var angleRaw := Lookup(ini, section, "LandscapeStartAngle").value;
      var landscapeOffset := if !usingALandscape then Some(0) else if offsetRaw.None? then Some(0) else ParseIntDec(offsetRaw.value);
      var landscapeAngle := if !usingALandscape then 0 else AngleUnits(if angleRaw.None? then Some(0) else ParseIntDec(angleRaw.value));

      var background := Lookup(ini, section, "Background").value;
      var backgroundFile := if background.None? then "" else background.value;
      var d := NewDest().(xPos := Side(xTile, xOffset), yPos := Side(yTile, yOffset), angle := angleUnits,
                          useExistingAngle := useExistingAngle, usingALandscape := usingALandscape,
                          useExistingLandscape := !usingALandscape, landscapeFile := landscapeFile,
                          landscapeOffsetFromTop := landscapeOffset, landscapeStartAngle := landscapeAngle);
      Returns(WithBackground(d, backgroundFile, ColourValues(ini, section)))
  }

  /**
   * The background fields `getDest` sets: with a file named, the file and
   * the destination's default colours; otherwise each of the twelve colour
   * values, a missing one taking its channel's default and marking the
   * background as the existing one. No other field changes.
   */
  function WithBackground(d: Dest, backgroundFile: string, vs: seq<Option<int>>): (r: Dest)
    requires |vs| == 12
    ensures r.backgroundFile == backgroundFile
    ensures (r.backgroundFromFile <==> |backgroundFile| > 0) && (r.backgroundFromRGB <==> !r.backgroundFromFile)
    ensures r.useExistingBackground <==> !r.backgroundFromFile && Some(MissingValue) in vs
    ensures r.backgroundFromFile ==> ColourFields(r) == ColourFields(NewDest())
    ensures !r.backgroundFromFile ==> forall k :: 0 <= k < 12 ==> ColourFields(r)[k] == Colour(vs[k], ColourDefaults[k])
    ensures r.xPos == d.xPos && r.yPos == d.yPos && r.angle == d.angle && r.useExistingAngle == d.useExistingAngle
    ensures r.usingALandscape == d.usingALandscape && r.useExistingLandscape == d.useExistingLandscape
    ensures r.landscapeFile == d.landscapeFile && r.landscapeOffsetFromTop == d.landscapeOffsetFromTop
    ensures r.landscapeStartAngle == d.landscapeStartAngle
  {
    var n := NewDest();
    if |backgroundFile| > 0 then
      d.(backgroundFromFile := true, backgroundFromRGB := false, useExistingBackground := false,
         backgroundFile := backgroundFile,
         skyRed := n.skyRed, skyGreen := n.skyGreen, skyBlue := n.skyBlue,
         skyRedStep := n.skyRedStep, skyGreenStep := n.skyGreenStep, skyBlueStep := n.skyBlueStep,
         groundRed := n.groundRed, groundGreen := n.groundGreen, groundBlue := n.groundBlue,
         groundRedStep := n.groundRedStep, groundGreenStep := n.groundGreenStep, groundBlueStep := n.groundBlueStep)
    else
      d.(backgroundFromFile := false, backgroundFromRGB := true,
         useExistingBackground := Some(MissingValue) in vs, backgroundFile := backgroundFile,
         skyRed := Colour(vs[0], 40), skyGreen := Colour(vs[1], 125), skyBlue := Colour(vs[2], 225),
         skyRedStep := Colour(vs[3], 2), skyGreenStep := Colour(vs[4], 0), skyBlueStep := Colour(vs[5], 0),
         groundRed := Colour(vs[6], 100), groundGreen := Colour(vs[7], 80), groundBlue := Colour(vs[8], 40),
         groundRedStep := Colour(vs[9], 1), groundGreenStep := Colour(vs[10], 1), groundBlueStep := Colour(vs[11], 1))
  }

  /**
   * The angle of a destination: a missing angle keeps the player's angle and
   * stores 45 degrees; an angle from the file is converted to maze units and
   * lies in [0, ANGLE360).
   */
  lemma {:induction false} DestAngle(ini: IniObj, w: int, h: int, num: int)
    requires DestSection(num) in ini
    ensures var r := GetDest(ini, w, h, num);
      && r.Returns?
      && (r.value.useExistingAngle ==> r.value.angle == 240)
      && 0 <= r.value.angle < Trig.ANGLE360
  {
    var s := DestSection(num);
    CheckedInRangeOrDefault(ini, s, "Angle", -1, 0, 359);
    var angle := Value(ini, s, "Angle", -1, 0, 359);
    Trig.DegreesLandmarks();
    Trig.DegreesInOneTurn(45);
    if angle.Some? && angle != Some(-1) { Trig.DegreesInOneTurn(angle.value); }
    Trig.AngleValues();
  }

  /** Destination positions lie in a tile allowed by the map size (or the default tile 10). */
  lemma {:induction false} DestPositionInTiles(ini: IniObj, w: int, h: int, num: int)
    requires DestSection(num) in ini
    ensures var r := GetDest(ini, w, h, num);
      && r.Returns? && SideInTile(r.value.xPos, 10, w - 1) && SideInTile(r.value.yPos, 10, h - 1)
  {
    var s := DestSection(num);
    CheckedSide(ini, s, "XTile", "XTileOffset", 10, w - 1);
    CheckedSide(ini, s, "YTile", "YTileOffset", 10, h - 1);
  }

  /**
   * With no background file, a colour value that is missing (or out of
   * range) takes its channel's default and marks the background as the
   * existing one; one that is present is stored as read.
   */
  lemma {:induction false} DestColours(ini: IniObj, w: int, h: int, num: int, k: int)
    requires DestSection(num) in ini && 0 <= k < 12
    requires GetDest(ini, w, h, num).value.backgroundFromRGB
    ensures var d := GetDest(ini, w, h, num).value;
      var v := ColourValues(ini, DestSection(num))[k];
      && (v == Some(MissingValue) ==> ColourFields(d)[k] == Some(ColourDefaults[k]) && d.useExistingBackground)
      && (v != Some(MissingValue) ==> ColourFields(d)[k] == v)
      && (d.useExistingBackground <==> Some(MissingValue) in ColourValues(ini, DestSection(num)))
  {
  }

  /** With a background file the colours stay at the destination defaults and the existing background is not used. */
  lemma DestBackgroundFile(ini: IniObj, w: int, h: int, num: int)
    requires DestSection(num) in ini
    requires GetDest(ini, w, h, num).value.backgroundFromFile
    ensures var d := GetDest(ini, w, h, num).value;
      ColourFields(d) == ColourFields(NewDest()) && !d.useExistingBackground
  {
  }

  /** A landscape is used exactly when its file name is non-empty; without one both landscape numbers are 0. */
  lemma DestLandscape(ini: IniObj, w: int, h: int, num: int)
    requires DestSection(num) in ini
    ensures var d := GetDest(ini, w, h, num).value;
      && (d.usingALandscape <==> |d.landscapeFile| > 0)
      && (!d.usingALandscape ==> d.landscapeOffsetFromTop == Some(0) && d.landscapeStartAngle == 0)
  {
  }

  /** The traps and destinations once loaded. */
  class MazeConfig {
    const mapHeight: int
    const mapWidth: int
    var numTraps: int
    var numDests: int
    var traps: seq<Trap>
    var dests: seq<Dest>
    var iniObj: IniObj

    constructor(mapHeight: int, mapWidth: int)
      ensures this.mapHeight == mapHeight && this.mapWidth == mapWidth
      ensures numTraps == 0 && numDests == 1 && traps == [] && dests == [] && iniObj == map[]
    {
      this.mapHeight := mapHeight;
      this.mapWidth := mapWidth;
      numTraps := 0;
      numDests := 1;
      traps := [];
      dests := [];
      iniObj := map[];
    }

    /** `advanceToDest(n)`: destination n when 0 <= n < numDests, otherwise nothing (null, or undefined past the list). */
    function AdvanceToDest(destNum: int): (r: Option<Dest>)
      reads this
      ensures r.Some? ==> 0 <= destNum < numDests && destNum < |dests| && r.value == dests[destNum]
      ensures 0 <= destNum < numDests && destNum < |dests| ==> r == Some(dests[destNum])
    {
      if destNum >= 0 && destNum < numDests then At(dests, destNum) else None
    }
  }
}

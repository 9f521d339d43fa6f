// A destination: where the player is placed, facing which way, and the
// background and landscape shown there.
module Dests {
  import opened Js

  /**
   * The destination record. Positions and colours come from `parseInt` of
   * configuration values and may be NaN (None).
   */
  datatype Dest = Dest(
    xPos: Option<int>, yPos: Option<int>, angle: int, useExistingAngle: bool,
    backgroundFromFile: bool, backgroundFromRGB: bool, useExistingBackground: bool,
    backgroundFile: string,
    skyRed: Option<int>, skyGreen: Option<int>, skyBlue: Option<int>,
    skyRedStep: Option<int>, skyGreenStep: Option<int>, skyBlueStep: Option<int>,
    groundRed: Option<int>, groundGreen: Option<int>, groundBlue: Option<int>,
    groundRedStep: Option<int>, groundGreenStep: Option<int>, groundBlueStep: Option<int>,
    usingALandscape: bool, useExistingLandscape: bool, landscapeFile: string,
    landscapeOffsetFromTop: Option<int>, landscapeStartAngle: int)

  /** `new Dest()`: the origin, a blue sky over brown ground, no landscape. */
  function NewDest(): Dest {
    Dest(Some(0), Some(0), 0, false,
      false, true, false, "",
      Some(40), Some(125), Some(225), Some(2), Some(0), Some(0),
      Some(100), Some(80), Some(40), Some(1), Some(1), Some(1),
      false, false, "", Some(0), 0)
  }
}

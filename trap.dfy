// A trap: a rectangle of the maze, in maze coordinates, that can send the
// player to a destination, show an overlay or play a sound.
module Traps {
  import opened Js

  /**
   * The trap record. Its sides come from `parseInt` of configuration values
   * and may be NaN (None).
   */
  datatype Trap = Trap(
    leftSide: Option<int>, rightSide: Option<int>, topSide: Option<int>, bottomSide: Option<int>,
    usingDest: bool, gotoDest: Option<int>,
    usingOverlay: bool, overlayFile: string,
    usingSound: bool, soundFile: Option<string>)

  /** `new Trap()`: every side 0, going nowhere, no overlay and no sound. */
  function NewTrap(): Trap {
    Trap(Some(0), Some(0), Some(0), Some(0), false, Some(0), false, "", false, Some(""))
  }

  /** `lo <= x` for a side that may be NaN. */
  predicate AtLeast(x: real, lo: Option<int>) { lo.Some? && x >= lo.value as real }

  /** `x <= hi` for a side that may be NaN. */
  predicate AtMost(x: real, hi: Option<int>) { hi.Some? && x <= hi.value as real }

  /** `insideThisTrap(x, y)`: the closed rectangle test; a NaN side contains nothing. */
  function InsideThisTrap(t: Trap, x: real, y: real): (r: bool)
    ensures r ==> t.leftSide.Some? && t.rightSide.Some? && t.topSide.Some? && t.bottomSide.Some?
  {
    AtLeast(x, t.leftSide) && AtMost(x, t.rightSide) && AtLeast(y, t.topSide) && AtMost(y, t.bottomSide)
  }

  /** With numeric sides, a point is inside exactly when it lies between both pairs of sides, edges included. */
  lemma InsideIsClosedRectangle(t: Trap, x: real, y: real)
    requires t.leftSide.Some? && t.rightSide.Some? && t.topSide.Some? && t.bottomSide.Some?
    ensures InsideThisTrap(t, x, y) <==>
      t.leftSide.value as real <= x <= t.rightSide.value as real &&
      t.topSide.value as real <= y <= t.bottomSide.value as real
  {
  }

  /** A trap whose left side lies right of its right side, or whose top lies below its bottom, holds no point. */
  lemma InvertedTrapIsEmpty(t: Trap, x: real, y: real)
    requires t.leftSide.Some? && t.rightSide.Some? && t.topSide.Some? && t.bottomSide.Some?
    requires t.leftSide.value > t.rightSide.value || t.topSide.value > t.bottomSide.value
    ensures !InsideThisTrap(t, x, y)
  {
  }

  /** The fresh trap covers the single point (0, 0). */
  lemma NewTrapIsOnePoint(x: real, y: real)
    ensures InsideThisTrap(NewTrap(), x, y) <==> x == 0.0 && y == 0.0
    ensures !NewTrap().usingDest && !NewTrap().usingOverlay && !NewTrap().usingSound
  {
  }

  /** Moving any side outward keeps every point that was inside. */
  lemma WideningKeepsPoints(t: Trap, u: Trap, x: real, y: real)
    requires u.leftSide.Some? && u.rightSide.Some? && u.topSide.Some? && u.bottomSide.Some?
    requires InsideThisTrap(t, x, y)
    requires u.leftSide.value <= t.leftSide.value && u.rightSide.value >= t.rightSide.value
    requires u.topSide.value <= t.topSide.value && u.bottomSide.value >= t.bottomSide.value
    ensures InsideThisTrap(u, x, y)
  {
  }
}

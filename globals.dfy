// Constants shared across the maze: the projection plane, the tile size and
// the player's distance to the projection plane.
module MazeGlobals {
  const PropHeight: int := 64
  const ProjectionPlaneWidth: int := 320
  const ProjectionPlaneHeight: int := 200
  const ProjectionPlaneWidthTimesHeight: int := 64000
  const TileSize: int := 64
  const TileSizeShift: int := 6
  const PlayerDistToProjPlane: int := 277

  /** The screen constants agree with each other: 320 * 200 pixels and 64 == 2^6. */
  lemma ScreenConstants()
    ensures ProjectionPlaneWidthTimesHeight == ProjectionPlaneWidth * ProjectionPlaneHeight
    ensures TileSize == 64 && TileSizeShift == 6
  {
  }
}

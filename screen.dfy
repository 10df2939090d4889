/** Screen geometry and tile size shared by every component of the game. */
module Screen {
  const ScreenWidth: int := 1280
  const ScreenHeight: int := 720
  /** Side of one terrain tile, in pixels. */
  const TileSize: int := 5
  /** Number of tile columns (256). */
  const MapWidth: int := ScreenWidth / TileSize
  /** Number of tile rows (144). */
  const MapHeight: int := ScreenHeight / TileSize
}

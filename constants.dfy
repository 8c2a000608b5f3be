/** Build-time configuration of the wall (src/lib/constants.ts). */
module Constants {

  /** Width and height of the wall, in cells. */
  const CANVAS_SIZE: int := 100

  /** Side of one cell on screen, in canvas pixels. */
  const SCALE: int := 5

  /** Largest ink budget a participant regenerates to. */
  const MAX_INK: int := 200
}

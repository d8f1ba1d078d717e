/** Screen and sprite constants of the game (the SETTING and IMAGE blocks). */
module Settings {
  /** Window size in pixels. */
  const WIDTH: int := 400
  const HEIGHT: int := 600

  /** The bird sprite is scaled to 50 x 40 pixels. */
  const BIRD_W: int := 50
  const BIRD_H: int := 40

  /** The pipe sprite is scaled to 70 pixels wide. */
  const PIPE_W: int := 70
}

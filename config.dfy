// Module-level constants of the platformer (window size, frame rate,
// walking speed) and the Player class constants.
module Config {
  /** Window size in pixels. */
  const Width: int := 800
  const Height: int := 600
  /** Frame-rate cap of the game loop. */
  const Fps: int := 60
  /** Horizontal speed set by the movement keys. */
  const PlayerVel: int := 5
  /** Player.GRAVITY: the jump impulse is -Gravity * 8. */
  const Gravity: int := 1
  /** Player.ANIMATION_DELAY: game frames per animation frame. */
  const AnimationDelay: int := 3
  /** Width of the band at each window edge that makes the camera scroll. */
  const ScrollAreaWidth: int := 200
  /** Edge length of a terrain block in the level built by main. */
  const BlockSize: int := 96
}

/** Tuning constants of the game world (constants.ts). */
module Constants {
  /** Downward acceleration added to the vertical velocity every running tick. */
  const GRAVITY: real := 0.45
  /** Vertical velocity given by a jump impulse (negative is upward). */
  const JUMP_FORCE: real := -10.5
  /** Horizontal speed the player is driven toward while a direction is held. */
  const MOVE_SPEED: real := 4.2
  /** Width of the visible viewport, used by the camera. */
  const CANVAS_WIDTH: real := 800.0
  /** Screen y of the road surface; larger y is lower on screen. */
  const GROUND_Y: real := 400.0
  /** Player box width and height. */
  const PLAYER_W: real := 32.0
  const PLAYER_H: real := 48.0
  /** Forgiving inset applied to both boxes when testing a car hit. */
  const HITBOX_MARGIN: real := 6.0

  /** Tick-local constants written inline in the game loop. */
  const WIND_FACTOR: real := 0.03
  const DEFAULT_FRICTION: real := 0.8
  const SNOW_SPEED_MULT: real := 0.75
  const COYOTE_TICKS: int := 8
  const JUMP_BUFFER_TICKS: int := 10
  const LANDING_TOLERANCE: real := 15.0
  const SCORE_STRIDE: real := 100.0
  const SCORE_POINTS: int := 10
  const CAMERA_EASING: real := 0.1
  const CAR_WRAP_X: real := -200.0
}

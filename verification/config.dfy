/**
 Tuning constants of the platformer and the plane vector the other modules share
 (adventureGame.py, lines 9-59). Only the constants the modelled logic reads are
 declared; the physics-body parameters (gravity, damping, mass, speed caps, wall
 friction) configure the external physics engine and are not part of this model.
 */
module Config {

  /** A point or a vector in world units. */
  datatype Vec2 = Vec2(x: real, y: real)

  /** Side of one square tile image, in pixels. */
  const SpriteImageSize: int := 128

  /** Scale applied to the player's textures. */
  const SpriteScalingPlayer: real := 0.5

  /** Scaled tile size: the source truncates the product to an integer. */
  const SpriteSize: int := (SpriteImageSize as real * SpriteScalingPlayer).Floor

  /** Horizontal force while a single arrow key is held on the ground. */
  const PlayerMoveForceOnGround: real := 8000.0

  /** Horizontal force while a single arrow key is held in the air. */
  const PlayerMoveForceInAir: real := 900.0

  /** Upward impulse of one jump. */
  const PlayerJumpImpulse: real := 1800.0

  /** Displacements of at most this magnitude count as standing still. */
  const DeadZone: real := 0.1

  /** Horizontal distance the player travels per walk-cycle frame. */
  const DistanceToChangeTexture: real := 20.0

  /** Number of textures in the walk cycle (indices 0 to 7). */
  const WalkFrameCount: int := 8

  /** Window size, which is also the camera's viewport. */
  const ScreenWidth: real := 1200.0
  const ScreenHeight: real := 750.0

  function Abs(x: real): real
  {
    if x < 0.0 then -x else x
  }
}

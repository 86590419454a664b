/**
 Camera following (GameWindow.center_camera_to_player in adventureGame.py). The
 camera's lower-left corner is placed so the player sits in the middle of the
 viewport, but never at a negative coordinate; there is no upper bound, so the
 camera may scroll past the right and top edges of the level.
 */
module Camera {
  import opened Config

  function MaxReal(a: real, b: real): real
  {
    if a < b then b else a
  }

  /** One axis: the centring target, floored at zero. */
  function ClampAxis(target: real): (o: real)
    ensures o >= 0.0 && o >= target
    ensures o == 0.0 || o == target
  {
    if target < 0.0 then 0.0 else target
  }

  /** Camera position for a player centred at `center` and a viewport of the given size. */
  function CenterOnPlayer(center: Vec2, viewportWidth: real, viewportHeight: real): (o: Vec2)
    ensures o.x == MaxReal(0.0, center.x - viewportWidth / 2.0)
    ensures o.y == MaxReal(0.0, center.y - viewportHeight / 2.0)
    ensures o.x >= 0.0 && o.y >= 0.0
    ensures center.x >= viewportWidth / 2.0 ==> o.x == center.x - viewportWidth / 2.0
    ensures center.y >= viewportHeight / 2.0 ==> o.y == center.y - viewportHeight / 2.0
  {
    Vec2(ClampAxis(center.x - viewportWidth / 2.0), ClampAxis(center.y - viewportHeight / 2.0))
  }

  /** The camera never moves backwards when the player moves forwards, on either axis. */
  lemma CameraIsMonotone(a: Vec2, b: Vec2, w: real, h: real)
    requires a.x <= b.x && a.y <= b.y
    ensures CenterOnPlayer(a, w, h).x <= CenterOnPlayer(b, w, h).x
    ensures CenterOnPlayer(a, w, h).y <= CenterOnPlayer(b, w, h).y
  {
  }

  /** Far from the lower-left edges the clamp is inactive: (1000, 1000) in the 1200x750 window gives (400, 625). */
  lemma CameraExampleUnclamped()
    ensures CenterOnPlayer(Vec2(1000.0, 1000.0), ScreenWidth, ScreenHeight) == Vec2(400.0, 625.0)
  {
  }

  /** At the world origin both components are clamped to zero. */
  lemma CameraExampleAtOrigin()
    ensures CenterOnPlayer(Vec2(0.0, 0.0), ScreenWidth, ScreenHeight) == Vec2(0.0, 0.0)
  {
  }

  /** No right or top bound: any camera position is reached by a player far enough away. */
  lemma CameraHasNoUpperBound(bound: real, w: real, h: real)
    requires w > 0.0 && h > 0.0
    ensures CenterOnPlayer(Vec2(bound + w, bound + h), w, h).x > bound
    ensures CenterOnPlayer(Vec2(bound + w, bound + h), w, h).y > bound
  {
  }
}

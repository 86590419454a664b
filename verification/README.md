# Adventure Game player controller, modelled in Dafny

This project models the game-specific logic of a small 2D platformer built on a
game engine and a rigid-body physics library. The engine does the physics,
asset loading and drawing. The modelled logic is:

- **Animation controller** (`Animation`, from `PlayerSprite.pymunk_moved`). Once per
  physics step it receives the player's displacement `(dx, dy)` and whether the
  player touches the ground. It updates:
  - the facing direction, with a 0.1-unit dead zone as hysteresis;
  - the horizontal odometer;
  - the walk-cycle index, which wraps over 8 frames;
  - the selected texture: `Idle`, `Jump`, `Fall` or `Walk(frame)`, each facing one way.

  The branches run in priority order: airborne jump/fall, then idle, then walk
  advance. When none fires, the previous texture is kept (the "latch").
- **Input tracking and jump gating** (`Controls.KeyPress`, `Controls.KeyRelease`).
  The left and right arrow flags are set and cleared. The up key requests one
  upward impulse of 1800 and the jump sound, but only while the player is on the ground.
- **Force selection** (`Controls.SelectForce`). It maps the held keys and the ground
  contact to an optional horizontal force and the player's friction:
  - one arrow key alone gives ±8000 on the ground or ±900 in the air, with friction 0;
  - both keys or neither give no force and friction 1.0.
- **Camera clamp** (`Camera.CenterOnPlayer`). The camera offset is the player centre
  minus half the viewport, floored at 0 on each axis. There is no upper bound.
- **Frame loop** (`Game`). Each frame positions the camera from the pre-step centre,
  runs the physics step and its animation callback, and then selects the forces.
  Key events are dispatched to their handlers. `Game.Replay` folds a whole
  sequence of events.

Numbers are `real`. The logic only compares displacements with constants and
adds or subtracts them. The physics engine is represented by its answers:
- a `Tick` event carries the step's displacement and the ground-contact flag;
- a `KeyDown` carries the ground-contact answer at the time of the press.

Calls the source makes into the engine and the audio system are returned as
`Effect` values, in the order the source makes them.

The odometer is reset only when the walk branch is reached, not whenever its
magnitude exceeds 20 (adventureGame.py:124-132). While the player is airborne or
idle it keeps growing past 20. A later walking step resets it only if the
odometer's magnitude still exceeds 20 after that step's dx is added. A step
back toward zero, for example from 25 with dx = -10, leaves 15 and takes the
latch instead (`Animation.Moved`, `Animation.NoResetWhenStepReturnsBelowThreshold`). The odometer
is a signed sum, and the code compares its absolute value
(adventureGame.py:112, 129).

The latch can keep a texture that faces the old way. After a turn, the walk
texture chosen before the turn stays on screen until another branch replaces
it. That happens on a walk advance, once the odometer passes the threshold
again, or when the idle, jump or fall branch fires
(`Animation.LatchKeepsTextureAcrossTurn`). The model keeps this behaviour.

## Model

| member | source | states |
|---|---|---|
| Animation.InitialPlayerValid | adventureGame.py:85-98 | A new sprite faces right and shows the right idle texture. Its walk index is 0 and its odometer is 0, so it satisfies the reachable-state invariant. |
| Animation.Turn | adventureGame.py:102-106 | A step beyond the dead zone leaves the player facing the way it moved. A step inside the dead zone (for example dx = -0.05) never changes the facing. |
| Animation.NextWalkIndex | adventureGame.py:134-137 | Advancing always changes the frame counter. From 0..7 it goes to the next frame modulo 8, so 7 wraps to 0. Any counter of 7 or more goes to 0. |
| Animation.Moved | adventureGame.py:100-138 | One physics callback, with these results: the facing follows the hysteresis rule; the odometer grows by dx, except that it resets to exactly 0 on a walk advance; airborne with dy > 0.1 gives Jump and with dy < -0.1 gives Fall; otherwise \|dx\| <= 0.1 gives Idle; the frame index changes exactly when the walk branch fires, and then becomes (old+1) mod 8 and the texture Walk(new index); when no branch fires the texture is kept; a newly chosen texture faces the current way; after a walking step on the ground \|odometer\| <= 20; validity is preserved. |
| Animation.ApexFallsThrough | adventureGame.py:114-126 | Airborne with \|dy\| <= 0.1, the step gives exactly the on-ground result for the same dx and prior state. |
| Animation.LatchKeepsTextureAcrossTurn | adventureGame.py:103-138 | Facing right on walk frame 3 with the odometer at 10, a step of -5 on the ground turns the player left but keeps the right-facing walk texture. |
| Animation.NoResetWhenStepReturnsBelowThreshold | adventureGame.py:112-132 | With the odometer at 25 after airborne travel, a grounded step of -10 leaves it at 15. The latch fires and nothing is reset. |
| Animation.RunPreservesValid | adventureGame.py:95-138 | Over any sequence of steps from a valid state, the walk index stays within 0..7 and a displayed walk texture is the one the index names. |
| Animation.RunCountsAdvances | adventureGame.py:129-138 | After any sequence of steps, the walk index has moved on by exactly one per walk advance, modulo 8. |
| Animation.OdometerConservesDistance | adventureGame.py:111-132 | Net horizontal displacement equals the change of the odometer plus the readings the resets discarded. |
| Animation.WalkCycleThrottled | adventureGame.py:111-138 | Each walk advance consumes more than 20 units of horizontal travel, so the frame rate does not drive the cycle. |
| Animation.StillStepsKeepPose | adventureGame.py:102-126 | If every step stays inside the horizontal dead zone, the facing and walk index never change and no advance happens. |
| Controls.KeyPress | adventureGame.py:254-265 | An arrow key sets its own flag and changes no other. Up requests the impulse (0, 1800) and the jump sound exactly when on the ground, and nothing otherwise. Other keys change nothing. |
| Controls.KeyRelease | adventureGame.py:266-271 | An arrow key clears its own flag and changes no other. Every other key changes nothing. |
| Controls.PressThenReleaseRestores | adventureGame.py:254-271 | Pressing and then releasing a key that was up restores the input state. |
| Controls.ReleaseThenPressRestores | adventureGame.py:254-271 | Releasing and then pressing an arrow key that was down restores the input state. |
| Controls.SelectForce | adventureGame.py:282-304 | A force exists exactly when one arrow key alone is held. It is horizontal and points toward the held key. Its magnitude is 8000 on the ground and 900 in the air. Friction is 0 with a force and 1.0 without. |
| Controls.SelectForceMirrors | adventureGame.py:284-301 | Swapping the left and right keys negates the force and keeps the friction. |
| Controls.BothKeysActLikeNone | adventureGame.py:284-304 | Both keys held gives the same control as none held: no force and friction 1.0. |
| Controls.ControlEffects | adventureGame.py:290-304 | A frame's engine calls are exactly two, force then friction, when a force was selected, and exactly one, the friction, otherwise. |
| Controls.FrameCallsFollowKeys | adventureGame.py:284-304 | From the held keys alone: one arrow key gives a horizontal force toward it followed by friction 0. Both keys or neither give the single call setting friction 1.0. |
| Camera.ClampAxis | adventureGame.py:181-185 | The clamped value is the target or 0, never negative, and never below the target. |
| Camera.CenterOnPlayer | adventureGame.py:175-188 | Each offset component is max(0, centre - viewport/2). It is exactly the unclamped value once the centre is at least half a viewport from the origin. |
| Camera.CameraIsMonotone | adventureGame.py:175-185 | Moving the player up or right never moves the camera down or left. |
| Camera.CameraExampleUnclamped | adventureGame.py:175-188 | A player at (1000, 1000) in the 1200x750 window gives the offset (400, 625). |
| Camera.CameraExampleAtOrigin | adventureGame.py:181-185 | A player at the origin gives the offset (0, 0). |
| Camera.CameraHasNoUpperBound | adventureGame.py:175-188 | For a positive viewport, every camera position beyond any bound is reached. No right or top clamp exists. |
| Game.Update | adventureGame.py:275-304 | One frame positions the camera from the pre-step centre, moves the player by the step's displacement, and runs the animation callback. Forces come from the held keys and the ground contact. Validity is preserved. |
| Game.Apply | adventureGame.py:254-304 | Key events change only the input flags. Validity is preserved by every event. |
| Game.ReplayKeepsValid | adventureGame.py:254-304 | Every state reachable by any sequence of events from a valid state is valid: walk index in 0..7 and camera offsets non-negative. |
| Game.InitialGameValid | adventureGame.py:219-226 | The player starts at (96, 160), which the camera clamps to the origin, and the initial state is valid. |
| Game.ReplayTracksHeldKeys | adventureGame.py:254-271 | After any sequence of events, an arrow key's flag is set exactly when some press of it was not followed by a release, or when it was held at the start and never released. |
| Game.JumpEffectsOfEvent | adventureGame.py:260-265 | A grounded up-key press yields one impulse and one jump sound. Every other event yields neither. |
| Game.JumpsOnlyFromGround | adventureGame.py:260-265 | Over any run, the number of jump impulses and jump sounds equals the number of up-key presses made on the ground. |

## Left out

- The physics step, ground detection and the engine's force, impulse and friction calls (adventureGame.py:232-251, 280). These belong to the physics library. Their answers are inputs (`Tick`, the ground flag of `KeyDown`) and their calls are `Effect` values.
- Which sprites the engine calls back. The model assumes the callback runs once per step with the same ground-contact answer that `on_update` reads after the step.
- The callback's rotation argument and the frame's elapsed time are never read, so they are not modelled.
- Physics-body parameters: gravity, damping, mass, friction, speed caps and wall friction (lines 18-35). They only configure the engine.
- Texture, sound and tilemap loading, layer lookup, and window and camera construction (lines 72-89, 163, 195-216). This is asset I/O. Textures are named by their kind, facing and frame.
- Drawing (`on_draw`) and the program entry point (lines 306-331). This is rendering and the event loop.
- How the camera animates toward its target. The model gives the position passed to the camera's move call.
- Floating-point rounding. Numbers are exact reals.
- The assignment to an up-pressed attribute on up-key release (line 273). It is never read.
- Key codes are decoded into `Key` values. The engine's numeric codes for the arrow keys are not part of this model.
- Animation.NextWalkIndex: for a negative counter the contract says only that the index changes, not that it goes up by one. Such a counter is unreachable from the initial state, which starts at 0.

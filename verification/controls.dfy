/**
 Keyboard handling and the per-frame movement policy of the game window
 (GameWindow.on_key_press, on_key_release and the force block of on_update in
 adventureGame.py). Calls into the physics engine and the audio system are not
 made here; they are returned as a list of effects in the order the source
 issues them.
 */
module Controls {
  import opened Config
  import opened Wrappers

  /** The keys the window reacts to; every other key code is `OtherKey`. */
  datatype Key = LeftKey | RightKey | UpKey | OtherKey(code: int)

  /** Which horizontal arrow keys are currently held down. */
  datatype InputState = InputState(leftPressed: bool, rightPressed: bool)

  const InitialInput: InputState := InputState(false, false)

  /** A request to the physics engine or to the audio system. */
  datatype Effect =
    | ApplyImpulse(impulse: Vec2)
    | PlayJumpSound
    | ApplyForce(force: Vec2)
    | SetFriction(friction: real)

  datatype KeyOutcome = KeyOutcome(input: InputState, effects: seq<Effect>)

  /** Whether the flag tracked for `k` is set; only the two arrow keys have one. */
  predicate Held(s: InputState, k: Key)
  {
    match k
    case LeftKey => s.leftPressed
    case RightKey => s.rightPressed
    case _ => false
  }

  predicate IsArrow(k: Key)
  {
    k.LeftKey? || k.RightKey?
  }

  /** The single jump: one upward impulse, then the jump sound. */
  const JumpImpulse: Vec2 := Vec2(0.0, PlayerJumpImpulse)

  /**
   Key-down handler. An arrow key sets its own flag and nothing else; the up key
   jumps only when the player stands on the ground (no double jump, no buffering);
   any other key is ignored.
   */
  function KeyPress(s: InputState, k: Key, onGround: bool): (r: KeyOutcome)
    ensures IsArrow(k) ==> Held(r.input, k)
    ensures forall k' :: k' != k ==> Held(r.input, k') == Held(s, k')
    ensures !IsArrow(k) ==> r.input == s
    ensures |r.effects| > 0 <==> k.UpKey? && onGround
    ensures |r.effects| > 0 ==> r.effects == [ApplyImpulse(JumpImpulse), PlayJumpSound]
  {
    match k
    case LeftKey => KeyOutcome(s.(leftPressed := true), [])
    case RightKey => KeyOutcome(s.(rightPressed := true), [])
    case UpKey =>
      if onGround then KeyOutcome(s, [ApplyImpulse(JumpImpulse), PlayJumpSound])
      else KeyOutcome(s, [])
    case OtherKey(_) => KeyOutcome(s, [])
  }

  /** Key-up handler: an arrow key clears its own flag; every other key changes nothing. */
  function KeyRelease(s: InputState, k: Key): (r: InputState)
    ensures !Held(r, k)
    ensures forall k' :: k' != k ==> Held(r, k') == Held(s, k')
    ensures !IsArrow(k) ==> r == s
  {
    match k
    case LeftKey => s.(leftPressed := false)
    case RightKey => s.(rightPressed := false)
    case _ => s
  }

  /** Releasing a key that was up before it was pressed restores the earlier input state. */
  lemma PressThenReleaseRestores(s: InputState, k: Key, onGround: bool)
    requires !Held(s, k)
    ensures KeyRelease(KeyPress(s, k, onGround).input, k) == s
  {
  }

  /** Pressing a key that was down before it was released restores the earlier input state. */
  lemma ReleaseThenPressRestores(s: InputState, k: Key, onGround: bool)
    requires IsArrow(k) && Held(s, k)
    ensures KeyPress(KeyRelease(s, k), k, onGround).input == s
  {
  }

  /**
   The movement request for one frame: a horizontal force, if any, and the
   player's friction coefficient.
   */
  datatype Control = Control(force: Option<Vec2>, friction: real)

  /**
   Force selection. Exactly one arrow key held pushes the player that way, hard
   on the ground and gently in the air, with friction off so the player can
   accelerate; both keys or neither push nothing and restore full friction.
   */
  function SelectForce(s: InputState, onGround: bool): (c: Control)
    ensures c.force.Some? <==> s.leftPressed != s.rightPressed
    ensures c.force.Some? ==> c.friction == 0.0
    ensures c.force.None? ==> c.friction == 1.0
    ensures c.force.Some? ==> c.force.value.y == 0.0
    ensures c.force.Some? ==> (c.force.value.x < 0.0 <==> s.leftPressed)
    ensures c.force.Some? && onGround ==> Abs(c.force.value.x) == PlayerMoveForceOnGround
    ensures c.force.Some? && !onGround ==> Abs(c.force.value.x) == PlayerMoveForceInAir
  {
    if s.leftPressed && !s.rightPressed then
      var force := if onGround then Vec2(-PlayerMoveForceOnGround, 0.0) else Vec2(-PlayerMoveForceInAir, 0.0);
      Control(Some(force), 0.0)
    else if s.rightPressed && !s.leftPressed then
      var force := if onGround then Vec2(PlayerMoveForceOnGround, 0.0) else Vec2(PlayerMoveForceInAir, 0.0);
      Control(Some(force), 0.0)
    else
      Control(None, 1.0)
  }

  function Mirror(s: InputState): InputState
  {
    InputState(s.rightPressed, s.leftPressed)
  }

  function MirrorControl(c: Control): Control
  {
    match c.force
    case Some(f) => c.(force := Some(Vec2(-f.x, f.y)))
    case None => c
  }

  /** Left and right are mirror images: swapping the keys negates the force and keeps the friction. */
  lemma SelectForceMirrors(s: InputState, onGround: bool)
    ensures SelectForce(Mirror(s), onGround) == MirrorControl(SelectForce(s, onGround))
  {
  }

  /** Holding both arrow keys is the same as holding neither (no "last key wins"). */
  lemma BothKeysActLikeNone(onGround: bool)
    ensures SelectForce(InputState(true, true), onGround) == SelectForce(InputState(false, false), onGround)
    ensures SelectForce(InputState(true, true), onGround) == Control(None, 1.0)
  {
  }

  /** The engine calls of one frame, in source order: the force if there is one, then the friction. */
  function ControlEffects(c: Control): (es: seq<Effect>)
    ensures |es| > 0 && es[|es| - 1] == SetFriction(c.friction)
    ensures forall i :: 0 <= i < |es| ==> es[i].ApplyForce? || es[i].SetFriction?
    ensures |es| == if c.force.Some? then 2 else 1
    ensures es[0].ApplyForce? <==> c.force.Some?
    ensures c.force.Some? ==> es[0].force == c.force.value
  {
    match c.force
    case Some(f) => [ApplyForce(f), SetFriction(c.friction)]
    case None => [SetFriction(c.friction)]
  }

  /**
   The engine calls of a frame follow from the held keys alone: two calls (force,
   then friction 0) when exactly one arrow key is held, otherwise the single call
   restoring friction 1.0.
   */
  lemma FrameCallsFollowKeys(s: InputState, onGround: bool)
    ensures var es := ControlEffects(SelectForce(s, onGround));
            && |es| == (if s.leftPressed != s.rightPressed then 2 else 1)
            && es[|es| - 1] == SetFriction(if s.leftPressed != s.rightPressed then 0.0 else 1.0)
            && (s.leftPressed != s.rightPressed ==> es[0].force.y == 0.0 && (es[0].force.x < 0.0 <==> s.leftPressed))
  {
    var c := SelectForce(s, onGround);
    var es := ControlEffects(c);
    assert c.force.Some? <==> s.leftPressed != s.rightPressed;
    if c.force.Some? {
      assert es[0].force == c.force.value;
    }
  }
}

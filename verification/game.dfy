/**
 The game window's frame loop and event handling (GameWindow in
 adventureGame.py). The physics engine is outside the model: each tick brings the
 player's displacement for that step and the engine's ground-contact answer, and
 each key-down brings the ground-contact answer at the time of the key press.
 Requests to the engine and to the audio system are collected as effects.
 */
module Game {
  import opened Config
  import opened Animation
  import opened Controls
  import Camera

  /** Everything the window keeps between frames. */
  datatype GameState = GameState(player: PlayerState, center: Vec2, input: InputState, camera: Vec2)

  /** The player is placed on grid cell (1, 2), at the centre of the tile. */
  const InitialCenter: Vec2 :=
    Vec2(SpriteSize as real * 1.0 + SpriteSize as real / 2.0, SpriteSize as real * 2.0 + SpriteSize as real / 2.0)

  /** State after setup: a fresh player, no keys held, the camera at the origin. */
  const InitialGame: GameState := GameState(InitialPlayer, InitialCenter, InitialInput, Vec2(0.0, 0.0))

  /** What the window observes from the outside world. */
  datatype Event =
    | KeyDown(key: Key, onGround: bool)
    | KeyUp(key: Key)
    | Tick(dx: real, dy: real, onGround: bool)

  datatype Outcome = Outcome(state: GameState, effects: seq<Effect>)

  /** What every state the window reaches satisfies. */
  predicate GameValid(g: GameState)
  {
    Valid(g.player) && g.camera.x >= 0.0 && g.camera.y >= 0.0
  }

  /**
   One frame (on_update): the camera is positioned from the player's centre
   BEFORE the physics step, the step moves the player and runs the animation
   callback, and the forces are chosen afterwards from the held keys and the
   ground contact after the step.
   */
  function Update(g: GameState, dx: real, dy: real, onGround: bool): (r: Outcome)
    ensures r.state.camera == Camera.CenterOnPlayer(g.center, ScreenWidth, ScreenHeight)
    ensures r.state.center == Vec2(g.center.x + dx, g.center.y + dy)
    ensures r.state.player == Moved(g.player, dx, dy, onGround)
    ensures r.state.input == g.input
    ensures r.effects == ControlEffects(SelectForce(g.input, onGround))
    ensures GameValid(g) ==> GameValid(r.state)
  {
    var camera := Camera.CenterOnPlayer(g.center, ScreenWidth, ScreenHeight);
    var player := Moved(g.player, dx, dy, onGround);
    var center := Vec2(g.center.x + dx, g.center.y + dy);
    var control := SelectForce(g.input, onGround);
    Outcome(GameState(player, center, g.input, camera), ControlEffects(control))
  }

  /** Dispatch of one event to its handler. */
  function Apply(g: GameState, e: Event): (r: Outcome)
    ensures GameValid(g) ==> GameValid(r.state)
    ensures !e.Tick? ==> r.state == g.(input := r.state.input)
  {
    match e
    case KeyDown(k, onGround) =>
      var o := KeyPress(g.input, k, onGround);
      Outcome(g.(input := o.input), o.effects)
    case KeyUp(k) =>
      Outcome(g.(input := KeyRelease(g.input, k)), [])
    case Tick(dx, dy, onGround) =>
      Update(g, dx, dy, onGround)
  }

  /** The state after a sequence of events, with every effect requested on the way, in order. */
  function Replay(g: GameState, es: seq<Event>): Outcome
    decreases |es|
  {
    if |es| == 0 then Outcome(g, [])
    else
      var before := Replay(g, es[..|es| - 1]);
      var last := Apply(before.state, es[|es| - 1]);
      Outcome(last.state, before.effects + last.effects)
  }

  /** Every state reachable from a valid one is valid. */
  lemma {:induction false} ReplayKeepsValid(g: GameState, es: seq<Event>)
    requires GameValid(g)
    ensures GameValid(Replay(g, es).state)
    decreases |es|
  {
    if |es| > 0 {
      ReplayKeepsValid(g, es[..|es| - 1]);
    }
  }

  lemma InitialGameValid()
    ensures GameValid(InitialGame)
    ensures InitialCenter == Vec2(96.0, 160.0)
    ensures Camera.CenterOnPlayer(InitialCenter, ScreenWidth, ScreenHeight) == Vec2(0.0, 0.0)
  {
  }

  predicate IsDown(e: Event, k: Key)
  {
    e.KeyDown? && e.key == k
  }

  predicate IsUp(e: Event, k: Key)
  {
    e.KeyUp? && e.key == k
  }

  /**
   Reference definition of key tracking, independent of the handlers: a key is
   held after a sequence of events when some key-down of it is followed by no
   key-up of it, or when it was held at the start and never released since.
   */
  ghost predicate HeldAfter(held0: bool, es: seq<Event>, k: Key)
  {
    || (exists i :: 0 <= i < |es| && IsDown(es[i], k) && forall j :: i < j < |es| ==> !IsUp(es[j], k))
    || (held0 && forall j :: 0 <= j < |es| ==> !IsUp(es[j], k))
  }

  /** An event that neither presses nor releases `k` does not change whether `k` is held. */
  lemma HeldAfterUnrelated(held0: bool, pre: seq<Event>, e: Event, k: Key)
    requires !IsDown(e, k) && !IsUp(e, k)
    ensures HeldAfter(held0, pre + [e], k) == HeldAfter(held0, pre, k)
  {
    var es := pre + [e];
    if exists i :: 0 <= i < |es| && IsDown(es[i], k) && forall j :: i < j < |es| ==> !IsUp(es[j], k) {
      var i :| 0 <= i < |es| && IsDown(es[i], k) && forall j :: i < j < |es| ==> !IsUp(es[j], k);
      assert es[i] == pre[i];
      assert forall j :: i < j < |pre| ==> es[j] == pre[j];
    }
    if exists i :: 0 <= i < |pre| && IsDown(pre[i], k) && forall j :: i < j < |pre| ==> !IsUp(pre[j], k) {
      var i :| 0 <= i < |pre| && IsDown(pre[i], k) && forall j :: i < j < |pre| ==> !IsUp(pre[j], k);
      assert es[i] == pre[i];
      assert forall j :: i < j < |es| ==> !IsUp(es[j], k);
    }
    assert forall j :: 0 <= j < |pre| ==> es[j] == pre[j];
  }

  /**
   The handlers implement the reference: after any sequence of events, an arrow
   key's flag is set exactly when the reference says the key is held.
   */
  lemma {:induction false} ReplayTracksHeldKeys(g: GameState, es: seq<Event>, k: Key)
    requires IsArrow(k)
    ensures Held(Replay(g, es).state.input, k) == HeldAfter(Held(g.input, k), es, k)
    decreases |es|
  {
    var held0 := Held(g.input, k);
    if |es| > 0 {
      var n := |es| - 1;
      var pre := es[..n];
      var e := es[n];
      assert es == pre + [e];
      ReplayTracksHeldKeys(g, pre, k);
      var before := Replay(g, pre).state;
      if IsDown(e, k) {
        assert Held(Apply(before, e).state.input, k);
        assert IsDown(es[n], k);
      } else if IsUp(e, k) {
        assert !Held(Apply(before, e).state.input, k);
        assert IsUp(es[n], k);
        assert forall i :: 0 <= i < |es| && IsDown(es[i], k) ==> i < n;
      } else {
        assert Held(Apply(before, e).state.input, k) == Held(before.input, k);
        HeldAfterUnrelated(held0, pre, e, k);
      }
    }
  }

  /** How many times `x` occurs in `xs`. */
  function Occurrences<T(==)>(xs: seq<T>, x: T): nat
    decreases |xs|
  {
    if |xs| == 0 then 0
    else Occurrences(xs[..|xs| - 1], x) + (if xs[|xs| - 1] == x then 1 else 0)
  }

  lemma {:induction false} OccurrencesAppend<T>(a: seq<T>, b: seq<T>, x: T)
    ensures Occurrences(a + b, x) == Occurrences(a, x) + Occurrences(b, x)
    decreases |b|
  {
    if |b| == 0 {
      assert a + b == a;
    } else {
      assert (a + b)[..|a + b| - 1] == a + b[..|b| - 1];
      OccurrencesAppend(a, b[..|b| - 1], x);
    }
  }

  /** Per event: a grounded up-key press yields one impulse and one sound, any other event neither. */
  lemma JumpEffectsOfEvent(g: GameState, e: Event)
    ensures Occurrences(Apply(g, e).effects, ApplyImpulse(JumpImpulse)) == (if e == KeyDown(UpKey, true) then 1 else 0)
    ensures Occurrences(Apply(g, e).effects, PlayJumpSound) == (if e == KeyDown(UpKey, true) then 1 else 0)
  {
    var fx := Apply(g, e).effects;
    match e
    case Tick(dx, dy, onGround) =>
      var c := SelectForce(g.input, onGround);
      if c.force.Some? {
        assert fx == [ApplyForce(c.force.value), SetFriction(c.friction)];
        assert fx[..1] == [ApplyForce(c.force.value)];
      } else {
        assert fx == [SetFriction(c.friction)];
      }
    case KeyDown(k, onGround) =>
      if k.UpKey? && onGround {
        assert fx == [ApplyImpulse(JumpImpulse), PlayJumpSound];
        assert fx[..1] == [ApplyImpulse(JumpImpulse)];
      } else {
        assert fx == [];
      }
    case KeyUp(k) =>
      assert fx == [];
  }

  /**
   Jump gating over a whole run: the window requests exactly one jump impulse and
   one jump sound per up-key press made while on the ground, and no other.
   */
  lemma {:induction false} JumpsOnlyFromGround(g: GameState, es: seq<Event>)
    ensures Occurrences(Replay(g, es).effects, ApplyImpulse(JumpImpulse)) == Occurrences(es, KeyDown(UpKey, true))
    ensures Occurrences(Replay(g, es).effects, PlayJumpSound) == Occurrences(es, KeyDown(UpKey, true))
    decreases |es|
  {
    if |es| > 0 {
      var pre := es[..|es| - 1];
      JumpsOnlyFromGround(g, pre);
      var before := Replay(g, pre);
      var fx := Apply(before.state, es[|es| - 1]).effects;
      JumpEffectsOfEvent(before.state, es[|es| - 1]);
      OccurrencesAppend(before.effects, fx, ApplyImpulse(JumpImpulse));
      OccurrencesAppend(before.effects, fx, PlayJumpSound);
    }
  }
}

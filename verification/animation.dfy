/**
 The player's animation controller (PlayerSprite in adventureGame.py, lines 61-138).

 Once per physics step the engine reports how far the player moved, (dx, dy), and
 whether the player stands on something. From that the controller updates the
 facing direction (with a dead zone, so tiny jitters do not flip the sprite),
 the horizontal odometer, the walk-cycle index and the selected texture.
 Branches are tried in priority order and the first that fires wins; when none
 fires the previously selected texture is kept (the "latch").
 */
module Animation {
  import opened Config

  /** Which texture of a left/right pair is drawn. */
  datatype Facing = Right | Left

  /** The texture the sprite shows; a walk texture also names its cycle frame. */
  datatype Texture =
    | Idle(facing: Facing)
    | Jump(facing: Facing)
    | Fall(facing: Facing)
    | Walk(frame: int, facing: Facing)

  /**
   The controller's persistent state. `walkIndex` is the source's plain integer
   frame counter and `odometer` the horizontal distance since the last frame change.
   */
  datatype PlayerState = PlayerState(facing: Facing, texture: Texture, walkIndex: int, odometer: real)

  /** State right after construction: facing right, idle texture, frame 0, odometer 0. */
  const InitialPlayer: PlayerState := PlayerState(Right, Idle(Right), 0, 0.0)

  /**
   What every reachable state satisfies: the walk index can select one of the
   eight walk textures, and a walk texture on display is the one the index names.
   */
  predicate Valid(p: PlayerState)
  {
    && 0 <= p.walkIndex < WalkFrameCount
    && (p.texture.Walk? ==> p.texture.frame == p.walkIndex)
  }

  lemma InitialPlayerValid()
    ensures Valid(InitialPlayer)
    ensures InitialPlayer.texture == Idle(InitialPlayer.facing)
  {
  }

  /**
   Facing update with hysteresis: only a displacement beyond the dead zone, in the
   sense opposite to the current facing, turns the player around.
   */
  function Turn(f: Facing, dx: real): (r: Facing)
    ensures dx < -DeadZone ==> r == Left
    ensures dx > DeadZone ==> r == Right
    ensures -DeadZone <= dx <= DeadZone ==> r == f
  {
    if dx < -DeadZone && f.Right? then Left
    else if dx > DeadZone && f.Left? then Right
    else f
  }

  /** Next frame of the walk cycle: the counter goes up by one and 7 wraps to 0. */
  function NextWalkIndex(i: int): (j: int)
    ensures j != i
    ensures 0 <= i < WalkFrameCount ==> j == (i + 1) % WalkFrameCount
    ensures 0 <= i ==> 0 <= j < WalkFrameCount
    ensures i >= WalkFrameCount - 1 ==> j == 0
  {
    if i + 1 > 7 then 0 else i + 1
  }

  /** Airborne and moving up beyond the dead zone: the jump texture wins. */
  predicate Rising(dy: real, onGround: bool)
  {
    !onGround && dy > DeadZone
  }

  /** Airborne and moving down beyond the dead zone: the fall texture wins. */
  predicate Sinking(dy: real, onGround: bool)
  {
    !onGround && dy < -DeadZone
  }

  /** Horizontal displacement inside the dead zone. */
  predicate Still(dx: real)
  {
    Abs(dx) <= DeadZone
  }

  /** The walk-advance branch fires: no earlier branch did and the odometer passed the threshold. */
  predicate Strides(p: PlayerState, dx: real, dy: real, onGround: bool)
  {
    && !Rising(dy, onGround)
    && !Sinking(dy, onGround)
    && !Still(dx)
    && Abs(p.odometer + dx) > DistanceToChangeTexture
  }

  /** No branch fires: the player moves on the ground (or at a jump's apex) below the threshold. */
  predicate Latches(p: PlayerState, dx: real, dy: real, onGround: bool)
  {
    && !Rising(dy, onGround)
    && !Sinking(dy, onGround)
    && !Still(dx)
    && Abs(p.odometer + dx) <= DistanceToChangeTexture
  }

  /** One physics-step callback (pymunk_moved). */
  function Moved(p: PlayerState, dx: real, dy: real, onGround: bool): (r: PlayerState)
    // facing and odometer
    ensures r.facing == Turn(p.facing, dx)
    ensures Strides(p, dx, dy, onGround) ==> r.odometer == 0.0
    ensures !Strides(p, dx, dy, onGround) ==> r.odometer == p.odometer + dx
    // airborne override
    ensures Rising(dy, onGround) ==> r.texture == Jump(r.facing)
    ensures Sinking(dy, onGround) ==> r.texture == Fall(r.facing)
    // idle
    ensures !Rising(dy, onGround) && !Sinking(dy, onGround) && Still(dx) ==> r.texture == Idle(r.facing)
    // walk advance: the frame index moves exactly when this branch fires
    ensures Strides(p, dx, dy, onGround) <==> r.walkIndex != p.walkIndex
    ensures Strides(p, dx, dy, onGround) ==> r.texture == Walk(r.walkIndex, r.facing)
    ensures Strides(p, dx, dy, onGround) && Valid(p) ==> r.walkIndex == (p.walkIndex + 1) % WalkFrameCount
    // latch
    ensures Latches(p, dx, dy, onGround) ==> r.texture == p.texture
    // consequences
    ensures r.texture != p.texture ==> r.texture.facing == r.facing
    ensures onGround && !Still(dx) ==> Abs(r.odometer) <= DistanceToChangeTexture
    ensures Valid(p) ==> Valid(r)
  {
    var facing := Turn(p.facing, dx);
    var odometer := p.odometer + dx;
    if !onGround && dy > DeadZone then
      p.(facing := facing, odometer := odometer, texture := Jump(facing))
    else if !onGround && dy < -DeadZone then
      p.(facing := facing, odometer := odometer, texture := Fall(facing))
    else if Abs(dx) <= DeadZone then
      p.(facing := facing, odometer := odometer, texture := Idle(facing))
    else if Abs(odometer) > DistanceToChangeTexture then
      var next := NextWalkIndex(p.walkIndex);
      PlayerState(facing, Walk(next, facing), next, 0.0)
    else
      p.(facing := facing, odometer := odometer)
  }

  /**
   At the apex of a jump (airborne, vertical motion inside the dead zone) the
   airborne branches do not fire and the step is exactly the on-ground step.
   */
  lemma ApexFallsThrough(p: PlayerState, dx: real, dy: real)
    requires Abs(dy) <= DeadZone
    ensures Moved(p, dx, dy, false) == Moved(p, dx, dy, true)
  {
  }

  /**
   The latch keeps a texture chosen before a turn: facing right on walk frame 3
   with the odometer at 10, a step of -5 on the ground turns the player left but
   leaves the right-facing walk texture on screen.
   */
  lemma LatchKeepsTextureAcrossTurn()
    ensures var p := PlayerState(Right, Walk(3, Right), 3, 10.0);
            var r := Moved(p, -5.0, 0.0, true);
            r.facing == Left && r.texture == Walk(3, Right)
  {
  }

  /**
   The odometer is not reset merely for being past the threshold: after airborne
   travel left it at 25, a walking step of -10 on the ground brings it to 15, so
   the latch fires and neither the odometer nor the walk index is reset.
   */
  lemma NoResetWhenStepReturnsBelowThreshold()
    ensures var p := PlayerState(Right, Idle(Right), 0, 25.0);
            var r := Moved(p, -10.0, 0.0, true);
            r.odometer == 15.0 && r.walkIndex == 0 && r.texture == Idle(Right)
  {
  }

  /** The per-step inputs of a sequence of physics steps. */
  datatype Frame = Frame(dx: real, dy: real, onGround: bool)

  function Step(p: PlayerState, f: Frame): PlayerState
  {
    Moved(p, f.dx, f.dy, f.onGround)
  }

  /** The state after a sequence of physics steps. */
  function Run(p: PlayerState, fs: seq<Frame>): PlayerState
    decreases |fs|
  {
    if |fs| == 0 then p else Run(Step(p, fs[0]), fs[1..])
  }

  /** How many steps of the sequence take the walk-advance branch. */
  function Advances(p: PlayerState, fs: seq<Frame>): nat
    decreases |fs|
  {
    if |fs| == 0 then 0
    else (if Strides(p, fs[0].dx, fs[0].dy, fs[0].onGround) then 1 else 0) + Advances(Step(p, fs[0]), fs[1..])
  }

  /** The odometer readings discarded by the resets along the sequence. */
  function Spent(p: PlayerState, fs: seq<Frame>): real
    decreases |fs|
  {
    if |fs| == 0 then 0.0
    else (if Strides(p, fs[0].dx, fs[0].dy, fs[0].onGround) then p.odometer + fs[0].dx else 0.0)
         + Spent(Step(p, fs[0]), fs[1..])
  }

  /** Net horizontal displacement of a sequence of steps. */
  function SumDx(fs: seq<Frame>): real
    decreases |fs|
  {
    if |fs| == 0 then 0.0 else fs[0].dx + SumDx(fs[1..])
  }

  /** Total horizontal distance travelled, regardless of direction. */
  function SumAbsDx(fs: seq<Frame>): real
    decreases |fs|
  {
    if |fs| == 0 then 0.0 else Abs(fs[0].dx) + SumAbsDx(fs[1..])
  }

  /** Every reachable state stays valid, whatever the physics reports. */
  lemma {:induction false} RunPreservesValid(p: PlayerState, fs: seq<Frame>)
    requires Valid(p)
    ensures Valid(Run(p, fs))
    decreases |fs|
  {
    if |fs| > 0 {
      RunPreservesValid(Step(p, fs[0]), fs[1..]);
    }
  }

  /**
   The walk index counts threshold crossings: after any sequence of steps it has
   moved on by exactly one frame per walk advance, modulo the cycle length.
   */
  lemma {:induction false} RunCountsAdvances(p: PlayerState, fs: seq<Frame>)
    requires Valid(p)
    ensures Run(p, fs).walkIndex == (p.walkIndex + Advances(p, fs)) % WalkFrameCount
    decreases |fs|
  {
    if |fs| == 0 {
    } else {
      var q := Step(p, fs[0]);
      RunCountsAdvances(q, fs[1..]);
      var n := Advances(q, fs[1..]);
      if Strides(p, fs[0].dx, fs[0].dy, fs[0].onGround) {
        assert q.walkIndex == (p.walkIndex + 1) % WalkFrameCount;
        ModShift(p.walkIndex, n);
      } else {
        assert q.walkIndex == p.walkIndex;
      }
    }
  }

  lemma ModShift(i: int, n: nat)
    requires 0 <= i < WalkFrameCount
    ensures ((i + 1) % WalkFrameCount + n) % WalkFrameCount == (i + 1 + n) % WalkFrameCount
  {
    if i + 1 == WalkFrameCount {
      assert (i + 1) % WalkFrameCount == 0;
      assert (i + 1 + n) % WalkFrameCount == n % WalkFrameCount;
    } else {
      assert (i + 1) % WalkFrameCount == i + 1;
    }
  }

  /**
   No horizontal travel is lost: the net displacement equals the change of the
   odometer plus the readings that the walk advances reset away.
   */
  lemma {:induction false} OdometerConservesDistance(p: PlayerState, fs: seq<Frame>)
    ensures Run(p, fs).odometer + Spent(p, fs) == p.odometer + SumDx(fs)
    decreases |fs|
  {
    if |fs| > 0 {
      OdometerConservesDistance(Step(p, fs[0]), fs[1..]);
    }
  }

  /**
   The walk cycle is throttled by distance, not by frame rate: every advance
   consumes more than DistanceToChangeTexture units of travel, counting what was
   already on the odometer at the start.
   */
  lemma {:induction false} WalkCycleThrottled(p: PlayerState, fs: seq<Frame>)
    ensures SumAbsDx(fs) + Abs(p.odometer)
            >= DistanceToChangeTexture * (Advances(p, fs) as real) + Abs(Run(p, fs).odometer)
    ensures Advances(p, fs) > 0 ==> SumAbsDx(fs) + Abs(p.odometer) > DistanceToChangeTexture * (Advances(p, fs) as real)
    decreases |fs|
  {
    if |fs| > 0 {
      WalkCycleThrottled(Step(p, fs[0]), fs[1..]);
    }
  }

  /**
   Standing still turns nothing: if every step stays inside the horizontal dead
   zone, the facing and the walk index never change and no walk advance happens.
   */
  lemma {:induction false} StillStepsKeepPose(p: PlayerState, fs: seq<Frame>)
    requires forall i :: 0 <= i < |fs| ==> Still(fs[i].dx)
    ensures Run(p, fs).facing == p.facing
    ensures Run(p, fs).walkIndex == p.walkIndex
    ensures Advances(p, fs) == 0
    decreases |fs|
  {
    if |fs| > 0 {
      assert Still(fs[0].dx);
      StillStepsKeepPose(Step(p, fs[0]), fs[1..]);
    }
  }
}

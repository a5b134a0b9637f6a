/** The player controller of `Player.cpp`, as pure step functions.

    The physics engine (Box2D behind `Physics`) is not modelled: what the
    player reads from it during a frame is given as values (`PhysicsView`),
    and what the player asks of it is returned as commands (`PhysicsCmd`), in
    the order they are issued. The velocity the body ends the frame with is
    the last `SetVelocity` command. Input is a snapshot of the six keys the
    player polls. Velocities are reals: float rounding is not modelled. */
module Player {
  import opened Wrappers
  import opened Render
  import opened CameraFollow

  /** Horizontal walking speed (`speed` in the header). */
  const Speed: real := 4.0
  /** Upward jump impulse (`jumpForce` in the header). */
  const JumpForce: real := 2.5
  /** Free-flight speed in god mode (`GOD_SPEED`). */
  const GodSpeed: real := 8.0
  /** Where the teleport key puts the body. */
  const TeleportX: int := 96
  const TeleportY: int := 96
  /** Sprite size set in `Start`. */
  const TexW: int := 32
  const TexH: int := 32

  /** The animation selected by `anims.SetCurrent`: "idle", "move", "jump". */
  datatype Anim = Idle | Moving | Jumping

  /** `KEY_IDLE`, `KEY_DOWN` (first frame pressed), `KEY_REPEAT` (held), `KEY_UP`. */
  datatype KeyState = KeyIdle | KeyDown | KeyRepeat | KeyUp

  /** The keys the player polls in one frame: A, D, W, S, SPACE and T. */
  datatype Input = Input(a: KeyState, d: KeyState, w: KeyState, s: KeyState, space: KeyState, t: KeyState)

  datatype Vec = Vec(x: real, y: real)

  datatype PlayerState = PlayerState(velocity: Vec, isJumping: bool, godMode: bool, anim: Anim)

  /** What the player asks of its physics body. */
  datatype PhysicsCmd =
    | SetVelocity(v: Vec)
    | ApplyImpulse(impulse: Vec)
    | SetPosition(x: int, y: int)

  /** What the physics body reports during a frame: its velocity when the
      frame starts (`GetLinearVelocity`) and its Y velocity after the jump
      impulse has been applied (`GetYVelocity`). */
  datatype PhysicsView = PhysicsView(bodyVelocity: Vec, resolvedVy: real)

  /** The collider tag of the other body in a collision. */
  datatype ColliderType = Platform | Item | Unknown | PlayerBody | OtherType(tag: nat)

  /** Side effects of a collision callback other than state changes. */
  datatype Effect = Log(message: string) | PlayFx(fx: int) | DestroyOther

  datatype Stage = Stage(player: PlayerState, cmds: seq<PhysicsCmd>)

  datatype CollisionResult = CollisionResult(player: PlayerState, effects: seq<Effect>)

  /** The state after `Start`: at rest, on no platform yet, "idle". */
  const Initial: PlayerState := PlayerState(Vec(0.0, 0.0), false, false, Idle)

  /** Movement keys count only while held (`KEY_REPEAT`), not on the frame
      they go down. */
  predicate Held(k: KeyState) {
    k == KeyRepeat
  }

  function Ind(b: bool): real {
    if b then 1.0 else 0.0
  }

  // ---------------------------------------------------------------------
  // The per-frame pipeline

  /** `GetPhysicsValues`: keep the body's vertical velocity, drop the
      horizontal one (no horizontal inertia). */
  function GetPhysicsValues(p: PlayerState, bodyVelocity: Vec): (r: PlayerState)
    ensures r.velocity.x == 0.0 && r.velocity.y == bodyVelocity.y
    ensures r.isJumping == p.isJumping && r.godMode == p.godMode && r.anim == p.anim
  {
    p.(velocity := Vec(0.0, bodyVelocity.y))
  }

  /** `Move`: A then D, so D wins when both are held. */
  function Move(p: PlayerState, input: Input): (r: PlayerState)
    ensures Held(input.d) ==> r.velocity.x == Speed
    ensures Held(input.a) && !Held(input.d) ==> r.velocity.x == -Speed
    ensures !Held(input.a) && !Held(input.d) ==> r.velocity.x == p.velocity.x
    ensures r.anim == if Held(input.a) || Held(input.d) then Moving else p.anim
    ensures r.velocity.y == p.velocity.y && r.isJumping == p.isJumping && r.godMode == p.godMode
  {
    var afterA := if Held(input.a) then p.(velocity := p.velocity.(x := -Speed), anim := Moving) else p;
    if Held(input.d) then afterA.(velocity := afterA.velocity.(x := Speed), anim := Moving) else afterA
  }

  /** Whether this frame's jump key starts a jump. */
  predicate JumpTriggered(p: PlayerState, input: Input) {
    input.space == KeyDown && !p.isJumping
  }

  /** `Jump`: an upward impulse, only on the frame SPACE goes down and only
      when not already jumping. */
  function Jump(p: PlayerState, input: Input): (r: Stage)
    ensures JumpTriggered(p, input) ==> r.player == p.(isJumping := true, anim := Jumping)
    ensures JumpTriggered(p, input) ==> r.cmds == [ApplyImpulse(Vec(0.0, -JumpForce))]
    ensures !JumpTriggered(p, input) ==> r == Stage(p, [])
  {
    if input.space == KeyDown && p.isJumping == false then
      Stage(p.(isJumping := true, anim := Jumping), [ApplyImpulse(Vec(0.0, -JumpForce))])
    else
      Stage(p, [])
  }

  /** `Teleport`: moves the body to (96, 96) when T goes down; mode and
      velocity play no part. */
  function Teleport(input: Input): (cmds: seq<PhysicsCmd>)
    ensures input.t == KeyDown ==> cmds == [SetPosition(TeleportX, TeleportY)]
    ensures input.t != KeyDown ==> cmds == []
  {
    if input.t == KeyDown then [SetPosition(96, 96)] else []
  }

  /** `ApplyPhysics`: while jumping the vertical velocity is the engine's
      resolved one; the result is committed to the body. */
  function ApplyPhysics(p: PlayerState, resolvedVy: real): (r: Stage)
    ensures r.player.velocity.x == p.velocity.x
    ensures r.player.velocity.y == if p.isJumping then resolvedVy else p.velocity.y
    ensures r.player.isJumping == p.isJumping && r.player.godMode == p.godMode && r.player.anim == p.anim
    ensures r.cmds == [SetVelocity(r.player.velocity)]
  {
    var q := if p.isJumping then p.(velocity := p.velocity.(y := resolvedVy)) else p;
    Stage(q, [SetVelocity(q.velocity)])
  }

  /** The free-flight velocity of god mode: `8 * (D - A)` across and
      `8 * (S - W)` down, from the held keys only. */
  function GodVelocity(input: Input): (v: Vec)
    ensures v.x == GodSpeed * (Ind(Held(input.d)) - Ind(Held(input.a)))
    ensures v.y == GodSpeed * (Ind(Held(input.s)) - Ind(Held(input.w)))
  {
    var vx := (if Held(input.a) then -GodSpeed else 0.0) + (if Held(input.d) then GodSpeed else 0.0);
    var vy := (if Held(input.w) then -GodSpeed else 0.0) + (if Held(input.s) then GodSpeed else 0.0);
    Vec(vx, vy)
  }

  /** `HandleGodMode`: nothing outside god mode; inside it, overwrite the
      body's velocity with the free-flight one. (The member `velocity` is
      left as `ApplyPhysics` set it.) */
  function HandleGodMode(p: PlayerState, input: Input): (cmds: seq<PhysicsCmd>)
    ensures !p.godMode ==> cmds == []
    ensures p.godMode ==> cmds == [SetVelocity(GodVelocity(input))]
  {
    if !p.godMode then [] else [SetVelocity(GodVelocity(input))]
  }

  /** The velocity a frame commits outside god mode, stated directly: D wins
      over A, no key means 0 across; vertically the engine's resolved value
      if the player is (or just started) jumping, else the body's own. */
  function NormalVelocity(p: PlayerState, input: Input, phys: PhysicsView): Vec {
    Vec(if Held(input.d) then Speed else if Held(input.a) then -Speed else 0.0,
        if p.isJumping || input.space == KeyDown then phys.resolvedVy else phys.bodyVelocity.y)
  }

  /** The velocity the body ends up with: the last `SetVelocity` issued. */
  function LastVelocity(cmds: seq<PhysicsCmd>): Option<Vec> {
    if |cmds| == 0 then None
    else if cmds[|cmds| - 1].SetVelocity? then Some(cmds[|cmds| - 1].v)
    else LastVelocity(cmds[..|cmds| - 1])
  }

  /** The number of jump impulses among `cmds`. */
  function Impulses(cmds: seq<PhysicsCmd>): nat {
    if |cmds| == 0 then 0
    else Impulses(cmds[..|cmds| - 1]) + (if cmds[|cmds| - 1].ApplyImpulse? then 1 else 0)
  }

  lemma {:induction false} ImpulsesAppend(a: seq<PhysicsCmd>, b: seq<PhysicsCmd>)
    ensures Impulses(a + b) == Impulses(a) + Impulses(b)
  {
    if |b| > 0 {
      assert (a + b)[..|a + b| - 1] == a + b[..|b| - 1];
      ImpulsesAppend(a, b[..|b| - 1]);
    } else {
      assert a + b == a;
    }
  }

  /** `Update` lines 59-66: `GetPhysicsValues`, `Move`, `Jump`, `Teleport`,
      `ApplyPhysics`, `HandleGodMode`, in that order. */
  function Step(p: PlayerState, input: Input, phys: PhysicsView): (r: Stage)
    ensures r.player.godMode == p.godMode
    ensures r.player.isJumping == (p.isJumping || input.space == KeyDown)
    ensures r.player.anim == if JumpTriggered(p, input) then Jumping
                             else if Held(input.a) || Held(input.d) then Moving
                             else p.anim
    ensures r.player.velocity == NormalVelocity(p, input, phys)
    ensures Impulses(r.cmds) == if JumpTriggered(p, input) then 1 else 0
    ensures SetPosition(TeleportX, TeleportY) in r.cmds <==> input.t == KeyDown
    ensures LastVelocity(r.cmds) == Some(if p.godMode then GodVelocity(input) else NormalVelocity(p, input, phys))
  {
    var read := GetPhysicsValues(p, phys.bodyVelocity);
    var moved := Move(read, input);
    var jumped := Jump(moved, input);
    var teleport := Teleport(input);
    var applied := ApplyPhysics(jumped.player, phys.resolvedVy);
    var god := HandleGodMode(applied.player, input);
    var cmds := jumped.cmds + teleport + applied.cmds + god;
    StepCommands(jumped.cmds, teleport, applied.player.velocity, god);
    Stage(applied.player, cmds)
  }

  /** The command list of one frame: impulse (if any), teleport (if any),
      the committed velocity, and the god-mode override (if any). */
  lemma StepCommands(jump: seq<PhysicsCmd>, teleport: seq<PhysicsCmd>, v: Vec, god: seq<PhysicsCmd>)
    requires jump == [] || jump == [ApplyImpulse(Vec(0.0, -JumpForce))]
    requires teleport == [] || teleport == [SetPosition(TeleportX, TeleportY)]
    requires god == [] || (|god| == 1 && god[0].SetVelocity?)
    ensures var cmds := jump + teleport + [SetVelocity(v)] + god;
            && Impulses(cmds) == |jump|
            && (SetPosition(TeleportX, TeleportY) in cmds <==> teleport != [])
            && LastVelocity(cmds) == Some(if god == [] then v else god[0].v)
  {
    var cmds := jump + teleport + [SetVelocity(v)] + god;
    ImpulsesAppend(jump + teleport + [SetVelocity(v)], god);
    ImpulsesAppend(jump + teleport, [SetVelocity(v)]);
    ImpulsesAppend(jump, teleport);
    assert Impulses([SetVelocity(v)]) == 0 by { assert [SetVelocity(v)][..0] == []; }
    if god == [] {
      assert cmds == jump + teleport + [SetVelocity(v)];
    } else {
      assert god == [god[0]];
      assert Impulses(god) == 0 by { assert god[..0] == []; }
    }
    if teleport == [] {
      assert SetPosition(TeleportX, TeleportY) !in cmds;
    } else {
      assert cmds[|jump|] == SetPosition(TeleportX, TeleportY);
    }
  }

  // ---------------------------------------------------------------------
  // Collisions and god mode

  /** `OnCollision`: ignored entirely in god mode. Otherwise a platform
      ends the jump and shows "idle" (whatever the horizontal motion), an
      item plays the pickup sound and asks the other entity to destroy
      itself, and anything else changes nothing. */
  function OnCollision(p: PlayerState, other: ColliderType, pickFx: int): (r: CollisionResult)
    ensures p.godMode ==> r == CollisionResult(p, [])
    ensures !p.godMode && other == Platform ==> r.player == p.(isJumping := false, anim := Idle)
    ensures other != Platform ==> r.player == p
    ensures DestroyOther in r.effects <==> !p.godMode && other == Item
    ensures PlayFx(pickFx) in r.effects <==> !p.godMode && other == Item
  {
    if p.godMode then CollisionResult(p, [])
    else
      match other
      case Platform => CollisionResult(p.(isJumping := false, anim := Idle), [Log("Collision PLATFORM")])
      case Item => CollisionResult(p, [Log("Collision ITEM"), PlayFx(pickFx), DestroyOther])
      case Unknown => CollisionResult(p, [Log("Collision UNKNOWN")])
      case _ => CollisionResult(p, [])
  }

  /** `OnCollisionEnd`: only logs, in every mode. */
  function OnCollisionEnd(p: PlayerState, other: ColliderType): (r: CollisionResult)
    ensures r.player == p
    ensures forall e :: e in r.effects ==> e.Log?
    ensures r.effects == [] <==> other.PlayerBody? || other.OtherType?
  {
    match other
    case Platform => CollisionResult(p, [Log("End Collision PLATFORM")])
    case Item => CollisionResult(p, [Log("End Collision ITEM")])
    case Unknown => CollisionResult(p, [Log("End Collision UNKNOWN")])
    case _ => CollisionResult(p, [])
  }

  /** `ToggleGodMode`: flips the mode; turning it on stops the body. */
  function ToggleGodMode(p: PlayerState): (r: Stage)
    ensures r.player.godMode == !p.godMode
    ensures r.player.velocity == p.velocity && r.player.isJumping == p.isJumping && r.player.anim == p.anim
    ensures r.cmds == if r.player.godMode then [SetVelocity(Vec(0.0, 0.0))] else []
  {
    var q := p.(godMode := !p.godMode);
    Stage(q, if q.godMode then [SetVelocity(Vec(0.0, 0.0))] else [])
  }

  /** Toggling twice restores the state. */
  lemma ToggleTwice(p: PlayerState)
    ensures ToggleGodMode(ToggleGodMode(p).player).player == p
  {
  }

  /** Entering god mode with residual velocity and no key held: the toggle
      stops the body, and the next frame still commits exactly zero. */
  lemma GodModeEntryStops(p: PlayerState, phys: PhysicsView)
    requires !p.godMode
    ensures ToggleGodMode(p).cmds == [SetVelocity(Vec(0.0, 0.0))]
    ensures var idle := Input(KeyIdle, KeyIdle, KeyIdle, KeyIdle, KeyIdle, KeyIdle);
            LastVelocity(Step(ToggleGodMode(p).player, idle, phys).cmds) == Some(Vec(0.0, 0.0))
  {
  }

  /** In god mode the frame's velocity is the free-flight one whatever the
      engine reports and whatever the jump logic did. */
  lemma GodModeSupersedes(p: PlayerState, input: Input, phys1: PhysicsView, phys2: PhysicsView)
    requires p.godMode
    ensures LastVelocity(Step(p, input, phys1).cmds) == LastVelocity(Step(p, input, phys2).cmds) == Some(GodVelocity(input))
  {
  }

  /** Landing on a platform re-arms the jump: the next SPACE press gives
      exactly one impulse. */
  lemma LandingReenablesJump(p: PlayerState, pickFx: int, input: Input, phys: PhysicsView)
    requires !p.godMode
    requires input.space == KeyDown
    ensures Impulses(Step(OnCollision(p, Platform, pickFx).player, input, phys).cmds) == 1
  {
  }

  // ---------------------------------------------------------------------
  // Sequences of events

  /** What can happen to the player between two observations. */
  datatype Event =
    | Frame(input: Input, phys: PhysicsView)
    | CollisionBegin(other: ColliderType)
    | CollisionEnd(other: ColliderType)
    | ToggleGod

  /** The effect of one event on the player state and the physics commands. */
  function Apply(p: PlayerState, e: Event, pickFx: int): Stage {
    match e
    case Frame(input, phys) => Step(p, input, phys)
    case CollisionBegin(other) => Stage(OnCollision(p, other, pickFx).player, [])
    case CollisionEnd(other) => Stage(OnCollisionEnd(p, other).player, [])
    case ToggleGod => ToggleGodMode(p)
  }

  /** A run of events from state `p`, with all physics commands in order. */
  function Run(p: PlayerState, events: seq<Event>, pickFx: int): Stage
    decreases |events|
  {
    if |events| == 0 then Stage(p, [])
    else
      var first := Apply(p, events[0], pickFx);
      var rest := Run(first.player, events[1..], pickFx);
      Stage(rest.player, first.cmds + rest.cmds)
  }

  /** The number of platform landings among `events`. */
  function Landings(events: seq<Event>): nat
    decreases |events|
  {
    if |events| == 0 then 0
    else (if events[0] == CollisionBegin(Platform) then 1 else 0) + Landings(events[1..])
  }

  /** One jump per landing: however the keys are pressed, a run issues at
      most one impulse more than it has platform landings (none more, if
      the player starts in the air). */
  lemma {:induction false} ImpulsesBoundedByLandings(p: PlayerState, events: seq<Event>, pickFx: int)
    ensures var r := Run(p, events, pickFx);
            Impulses(r.cmds) + (if r.player.isJumping then 0 else 1)
              <= Landings(events) + (if p.isJumping then 0 else 1)
    decreases |events|
  {
    if |events| > 0 {
      var first := Apply(p, events[0], pickFx);
      ImpulsesBoundedByLandings(first.player, events[1..], pickFx);
      ImpulsesAppend(first.cmds, Run(first.player, events[1..], pickFx).cmds);
      match events[0]
      case Frame(input, phys) =>
      case CollisionBegin(other) =>
        assert Impulses(first.cmds) == 0;
      case CollisionEnd(other) =>
        assert Impulses(first.cmds) == 0;
      case ToggleGod =>
        assert Impulses(first.cmds) == 0 by {
          if first.cmds != [] { assert first.cmds[..0] == []; }
        }
    }
  }

  // ---------------------------------------------------------------------
  // Drawing

  datatype DrawResult = DrawResult(ctx: RenderContext, sprite: Result<DrawCmd, RenderError>)

  /** `Draw`: place the camera for the body's position `(x, y)` in a map of
      `mapW x mapH`, then draw the current animation frame centred on the
      body with the camera just computed. */
  function Draw(ctx: RenderContext, x: int, y: int, mapW: int, mapH: int, texture: TextureId, frame: Rect): (r: DrawResult)
    ensures r.ctx.scale == ctx.scale && r.ctx.camera.w == ctx.camera.w && r.ctx.camera.h == ctx.camera.h
    ensures r.ctx.camera.x == CameraX(x, ctx.camera.w, mapW) && r.ctx.camera.y == CameraY(y, ctx.camera.h, mapH)
    ensures r.ctx.camera.x <= 0 && r.ctx.camera.y <= 0
    ensures mapW > ctx.camera.w ==> -(mapW - ctx.camera.w) <= r.ctx.camera.x
    ensures mapH > ctx.camera.h ==> -(mapH - ctx.camera.h) <= r.ctx.camera.y
    ensures r.sprite.Ok? && r.sprite.value.Blit? && r.sprite.value.src == Some(frame)
    ensures r.sprite.value.dst == Rect(r.ctx.camera.x + (x - TexW / 2) * ctx.scale, r.ctx.camera.y + (y - TexH / 2) * ctx.scale,
                                       frame.w * ctx.scale, frame.h * ctx.scale)
  {
    var camX := CameraX(x, ctx.camera.w, mapW);
    var camY := CameraY(y, ctx.camera.h, mapH);
    var ctx' := ctx.(camera := ctx.camera.(x := camX, y := camY));
    CNumeric.TruncOfWhole(camX);
    CNumeric.TruncOfWhole(camY);
    DrawResult(ctx', DrawTexture(ctx', texture, x - TexW / 2, y - TexH / 2, Some(frame), 1.0, 0.0, IntMax, IntMax, None))
  }

  /** At scale 1, when the camera is not clamped horizontally, the sprite's
      centre appears within one pixel of a quarter of the view width. */
  lemma SpriteAtAnchor(ctx: RenderContext, x: int, y: int, mapW: int, mapH: int, texture: TextureId, frame: Rect)
    requires ctx.scale == 1
    requires CameraX(x, ctx.camera.w, mapW) == DesiredX(x, ctx.camera.w)
    ensures var dst := Draw(ctx, x, y, mapW, mapH, texture, frame).sprite.value.dst;
            -4 < 4 * (dst.x + TexW / 2) - ctx.camera.w < 4
  {
    HorizontalAnchor(x, ctx.camera.w, mapW);
  }

  datatype UpdateResult = UpdateResult(player: PlayerState, cmds: seq<PhysicsCmd>, ctx: RenderContext, sprite: Result<DrawCmd, RenderError>)

  /** `Update`: the velocity pipeline, then `Draw` at the position the body
      reports afterwards (`x, y`). */
  function Update(p: PlayerState, input: Input, phys: PhysicsView, ctx: RenderContext, x: int, y: int,
                  mapW: int, mapH: int, texture: TextureId, frame: Rect): (r: UpdateResult)
    ensures r.player.godMode == p.godMode
    ensures r.player.isJumping == (p.isJumping || input.space == KeyDown)
    ensures r.player.anim == if JumpTriggered(p, input) then Jumping
                             else if Held(input.a) || Held(input.d) then Moving
                             else p.anim
    ensures r.player.velocity == NormalVelocity(p, input, phys)
    ensures Impulses(r.cmds) == if JumpTriggered(p, input) then 1 else 0
    ensures SetPosition(TeleportX, TeleportY) in r.cmds <==> input.t == KeyDown
    ensures LastVelocity(r.cmds) == Some(if p.godMode then GodVelocity(input) else NormalVelocity(p, input, phys))
    ensures r.ctx.camera.x == CameraX(x, ctx.camera.w, mapW) && r.ctx.camera.y == CameraY(y, ctx.camera.h, mapH)
    ensures r.ctx.camera.x <= 0 && r.ctx.camera.y <= 0
    ensures r.sprite.Ok? && r.sprite.value.Blit? && r.sprite.value.src == Some(frame)
  {
    var stepped := Step(p, input, phys);
    var drawn := Draw(ctx, x, y, mapW, mapH, texture, frame);
    UpdateResult(stepped.player, stepped.cmds, drawn.ctx, drawn.sprite)
  }
}

/** The game world and its per-frame tick (components/Game.tsx). `WorldState` and `Step` are
    the specification: one tick as a function of the world record, the configuration and the
    keys held. The class `World` is the mutable record the component keeps in a ref, with the
    imperative tick and level generation proved against that specification. */
module Game {
  import opened Constants
  import opened Types
  import opened Numeric
  import opened Physics
  import opened Collision
  import opened Progress
  import opened Level

  /** The world record plus the component's countdown and cleared flags. */
  datatype WorldState = WorldState(
    player: Player,
    entities: seq<Entity>,
    cameraX: real,
    levelWidth: real,
    goalX: real,
    isJumping: bool,
    coyoteTime: int,
    jumpBuffer: int,
    lastScoreX: real,
    countdown: int,
    cleared: bool)

  datatype StepResult = StepResult(world: WorldState, events: seq<Event>)

  /** The state a level starts in: player standing at x = 100, countdown at 3. */
  function InitialWorld(): WorldState
  {
    WorldState(Player(100.0, GROUND_Y - PLAYER_H, 0.0, 0.0), [], 0.0, 5000.0, 4500.0,
               false, 0, 0, 100.0, 3, false)
  }

  /** Physics runs only after the countdown and before the goal is reached. */
  predicate Running(s: WorldState)
  {
    s.countdown <= 0 && !s.cleared
  }

  /** First phase of a frame: velocity update, move, ground stop, level bounds, jump timers
      and the jump impulse. */
  function PlayerPhase(s: WorldState, cfg: LevelConfig, keys: Keys): StepResult
  {
    var moved := Integrate(Accelerate(s.player, Axis(keys), cfg), s.levelWidth);
    var t := JumpControl(moved.onGround, keys.jump, s.coyoteTime, s.jumpBuffer, s.isJumping);
    var body := if t.fired then moved.body.(vy := JUMP_FORCE) else moved.body;
    StepResult(s.(player := body, coyoteTime := t.coyote, jumpBuffer := t.buffer, isJumping := t.isJumping),
               if t.fired then [Play(JumpSound)] else [])
  }

  /** Second phase: the entity pass. */
  function EntityPhase(s: WorldState): StepResult
  {
    var pass := CollideAll(Pass(s.player, s.coyoteTime, s.isJumping, s.cleared, [], []), s.entities, s.levelWidth);
    StepResult(s.(player := pass.body, entities := pass.done, coyoteTime := pass.coyote,
                  isJumping := pass.isJumping, cleared := pass.cleared),
               pass.events)
  }

  /** Last phase: distance score, then the camera. */
  function ScorePhase(s: WorldState): StepResult
  {
    var score := ScoreStep(s.player.x, s.lastScoreX);
    StepResult(s.(lastScoreX := score.mark, cameraX := EaseCamera(s.cameraX, s.player.x, s.levelWidth)),
               score.events)
  }

  /** One animation frame of the game loop: nothing while frozen, otherwise the three phases. */
  function Step(s: WorldState, cfg: LevelConfig, keys: Keys): StepResult
  {
    if !Running(s) then StepResult(s, [])
    else
      var r1 := PlayerPhase(s, cfg, keys);
      var r2 := EntityPhase(r1.world);
      var r3 := ScorePhase(r2.world);
      StepResult(r3.world, r1.events + r2.events + r3.events)
  }

  /** Successive frames with the given keys held on each. */
  function Run(s: WorldState, cfg: LevelConfig, inputs: seq<Keys>): StepResult
    decreases |inputs|
  {
    if inputs == [] then StepResult(s, [])
    else
      var first := Step(s, cfg, inputs[0]);
      var rest := Run(first.world, cfg, inputs[1..]);
      StepResult(rest.world, first.events + rest.events)
  }

  /** What the loop keeps true of a level: the player inside the level and not below the road,
      the camera inside the scrollable range, and the fixed level dimensions. */
  predicate WorldInvariant(s: WorldState)
  {
    && s.levelWidth >= CANVAS_WIDTH
    && 0.0 <= s.player.x <= s.levelWidth - PLAYER_W
    && s.player.y + PLAYER_H <= GROUND_Y
    && 0.0 <= s.cameraX <= s.levelWidth - CANVAS_WIDTH
  }

  lemma InitialWorldIsValid()
    ensures WorldInvariant(InitialWorld())
  {
  }

  /** Every running tick leaves the player within [0, levelWidth - 32] horizontally and with
      its bottom edge no lower than the road, whatever state it started from; a frozen tick
      changes nothing and emits nothing. */
  lemma StepBounds(s: WorldState, cfg: LevelConfig, keys: Keys)
    requires s.levelWidth >= PLAYER_W
    ensures var r := Step(s, cfg, keys);
      && (Running(s) ==> 0.0 <= r.world.player.x <= s.levelWidth - PLAYER_W
                         && r.world.player.y + PLAYER_H <= GROUND_Y)
      && (!Running(s) ==> r.world == s && r.events == [])
  {
    if Running(s) {
      var moved := Integrate(Accelerate(s.player, Axis(keys), cfg), s.levelWidth);
      var t := JumpControl(moved.onGround, keys.jump, s.coyoteTime, s.jumpBuffer, s.isJumping);
      var body := if t.fired then moved.body.(vy := JUMP_FORCE) else moved.body;
      CollideAllFrame(Pass(body, t.coyote, t.isJumping, s.cleared, [], []), s.entities, s.levelWidth);
    }
  }

  /** The tick preserves the world invariant. */
  lemma StepPreservesInvariant(s: WorldState, cfg: LevelConfig, keys: Keys)
    requires WorldInvariant(s)
    ensures WorldInvariant(Step(s, cfg, keys).world)
  {
    StepBounds(s, cfg, keys);
    if Running(s) {
      var r := Step(s, cfg, keys).world;
      CameraStaysInRange(s.cameraX, r.player.x, s.levelWidth);
    }
  }

  /** Any run of ticks preserves the world invariant. */
  lemma {:induction false} RunPreservesInvariant(s: WorldState, cfg: LevelConfig, inputs: seq<Keys>)
    requires WorldInvariant(s)
    ensures WorldInvariant(Run(s, cfg, inputs).world)
    decreases |inputs|
  {
    if inputs != [] {
      StepPreservesInvariant(s, cfg, inputs[0]);
      RunPreservesInvariant(Step(s, cfg, inputs[0]).world, cfg, inputs[1..]);
    }
  }

  /** While the countdown runs or after the goal is reached, any number of frames leave the
      whole world unchanged and emit nothing. */
  lemma {:induction false} FrozenRunIsSilent(s: WorldState, cfg: LevelConfig, inputs: seq<Keys>)
    requires !Running(s)
    ensures Run(s, cfg, inputs) == StepResult(s, [])
    decreases |inputs|
  {
    if inputs != [] {
      FrozenRunIsSilent(s, cfg, inputs[1..]);
    }
  }

  /** A player standing on the road (or about to reach it this frame) who does not press jump
      and has no buffered jump stays exactly on the road, at rest vertically, grounded. */
  lemma GroundedPlayerStays(s: WorldState, cfg: LevelConfig, keys: Keys)
    requires Running(s)
    requires s.player.y + s.player.vy + GRAVITY + PLAYER_H >= GROUND_Y
    requires !keys.jump && s.jumpBuffer <= 1
    ensures var r := Step(s, cfg, keys).world;
      && r.player.y == GROUND_Y - PLAYER_H && r.player.vy == 0.0
      && r.coyoteTime == COYOTE_TICKS && !r.isJumping
  {
    var moved := Integrate(Accelerate(s.player, Axis(keys), cfg), s.levelWidth);
    var t := JumpControl(moved.onGround, keys.jump, s.coyoteTime, s.jumpBuffer, s.isJumping);
    assert !t.fired;
    NoLandingAtRest(Pass(moved.body, t.coyote, t.isJumping, s.cleared, [], []), s.entities, s.levelWidth);
  }

  /** With vertical velocity zero or upward nothing in the entity pass moves the player or
      touches the jump state. */
  lemma {:induction false} NoLandingAtRest(acc: Pass, ents: seq<Entity>, levelWidth: real)
    requires acc.body.vy <= 0.0
    ensures var r := CollideAll(acc, ents, levelWidth);
      r.body == acc.body && r.coyote == acc.coyote && r.isJumping == acc.isJumping
  {
    if ents != [] {
      var init := ents[..|ents| - 1];
      NoLandingAtRest(acc, init, levelWidth);
      var e := ents[|ents| - 1];
      if e.kind == Platform {
        PlatformIsOneWay(CollideAll(acc, init, levelWidth), e, levelWidth);
      } else if e.kind == Car {
        CarHit(CollideAll(acc, init, levelWidth), e, levelWidth);
      }
    }
  }

  /** Horizontal velocity changes only by the velocity update: the rest of the tick keeps it. */
  lemma StepVelocity(s: WorldState, cfg: LevelConfig, keys: Keys)
    requires Running(s)
    ensures var r := Step(s, cfg, keys).world;
      r.player.vx == Accelerate(s.player, Axis(keys), cfg).vx
  {
    var moved := Integrate(Accelerate(s.player, Axis(keys), cfg), s.levelWidth);
    var t := JumpControl(moved.onGround, keys.jump, s.coyoteTime, s.jumpBuffer, s.isJumping);
    var body := if t.fired then moved.body.(vy := JUMP_FORCE) else moved.body;
    CollideAllFrame(Pass(body, t.coyote, t.isJumping, s.cleared, [], []), s.entities, s.levelWidth);
  }

  /** Each running tick moves every entity by MoveEntity, keeping the list's length and order:
      cars drive and wrap, goal and platforms stay put. */
  lemma StepMovesEntities(s: WorldState, cfg: LevelConfig, keys: Keys)
    requires Running(s)
    ensures var r := Step(s, cfg, keys).world;
      && |r.entities| == |s.entities|
      && (forall i :: 0 <= i < |s.entities| ==> r.entities[i] == MoveEntity(s.entities[i], s.levelWidth))
      && (forall i :: 0 <= i < |s.entities| && s.entities[i].kind != Car ==> r.entities[i] == s.entities[i])
  {
    var moved := Integrate(Accelerate(s.player, Axis(keys), cfg), s.levelWidth);
    var t := JumpControl(moved.onGround, keys.jump, s.coyoteTime, s.jumpBuffer, s.isJumping);
    var body := if t.fired then moved.body.(vy := JUMP_FORCE) else moved.body;
    CollideAllFrame(Pass(body, t.coyote, t.isJumping, s.cleared, [], []), s.entities, s.levelWidth);
  }

  /** The number of ScoreUpdate events in a sequence. */
  function ScoreEventCount(evs: seq<Event>): nat
  {
    if evs == [] then 0
    else (if evs[0].ScoreUpdate? then 1 else 0) + ScoreEventCount(evs[1..])
  }

  lemma {:induction false} ScoreEventCountAppend(a: seq<Event>, b: seq<Event>)
    ensures ScoreEventCount(a + b) == ScoreEventCount(a) + ScoreEventCount(b)
  {
    if a == [] {
      assert a + b == b;
    } else {
      assert (a + b)[1..] == a[1..] + b;
      ScoreEventCountAppend(a[1..], b);
    }
  }

  lemma {:induction false} NoScoreEvents(evs: seq<Event>)
    requires forall j :: 0 <= j < |evs| ==> PassEvent(evs[j])
    ensures ScoreEventCount(evs) == 0
  {
    if evs != [] {
      NoScoreEvents(evs[1..]);
    }
  }

  /** Scoring in a tick: at most one ScoreUpdate, emitted exactly when the player ends the tick
      more than 100 past the mark, which then becomes the player's x; the mark never falls. */
  lemma StepScore(s: WorldState, cfg: LevelConfig, keys: Keys)
    requires Running(s)
    ensures var r := Step(s, cfg, keys);
      && r.world.lastScoreX >= s.lastScoreX
      && ScoreEventCount(r.events) == (if r.world.player.x > s.lastScoreX + SCORE_STRIDE then 1 else 0)
      && (r.world.player.x > s.lastScoreX + SCORE_STRIDE ==> r.world.lastScoreX == r.world.player.x)
      && (r.world.player.x <= s.lastScoreX + SCORE_STRIDE ==> r.world.lastScoreX == s.lastScoreX)
  {
    var moved := Integrate(Accelerate(s.player, Axis(keys), cfg), s.levelWidth);
    var t := JumpControl(moved.onGround, keys.jump, s.coyoteTime, s.jumpBuffer, s.isJumping);
    var body := if t.fired then moved.body.(vy := JUMP_FORCE) else moved.body;
    var pass := CollideAll(Pass(body, t.coyote, t.isJumping, s.cleared, [], []), s.entities, s.levelWidth);
    CollideAllFrame(Pass(body, t.coyote, t.isJumping, s.cleared, [], []), s.entities, s.levelWidth);
    NoScoreEvents(pass.events);
    var jumpEvents: seq<Event> := if t.fired then [Play(JumpSound)] else [];
    var score := ScoreStep(pass.body.x, s.lastScoreX);
    ScoreEventCountAppend(jumpEvents + pass.events, score.events);
    ScoreEventCountAppend(jumpEvents, pass.events);
    assert ScoreEventCount(jumpEvents) == 0 by {
      if t.fired {
        assert jumpEvents[1..] == [];
      }
    }
    assert ScoreEventCount(score.events) == (if pass.body.x > s.lastScoreX + SCORE_STRIDE then 1 else 0) by {
      if score.events != [] {
        assert score.events[1..] == [];
      }
    }
  }

  /** Over any run the score mark never falls. */
  lemma {:induction false} RunScoreMarkNeverFalls(s: WorldState, cfg: LevelConfig, inputs: seq<Keys>)
    ensures Run(s, cfg, inputs).world.lastScoreX >= s.lastScoreX
    decreases |inputs|
  {
    if inputs != [] {
      var first := Step(s, cfg, inputs[0]);
      if Running(s) {
        StepScore(s, cfg, inputs[0]);
      }
      RunScoreMarkNeverFalls(first.world, cfg, inputs[1..]);
    }
  }

  /** A list without GameOverCalled counts no game over. */
  lemma {:induction false} NoGameOverCalls(evs: seq<Event>)
    requires forall j :: 0 <= j < |evs| ==> evs[j] != GameOverCalled
    ensures GameOverCount(evs) == 0
  {
    if evs != [] {
      NoGameOverCalls(evs[..|evs| - 1]);
    }
  }

  /** Every running tick calls onGameOver once per car that, after moving, overlaps the player
      as the entity pass has left it at that car's turn, with no once-only guard: also after
      the goal was reached or another car hit earlier in the same tick. */
  lemma StepGameOverPerCar(s: WorldState, cfg: LevelConfig, keys: Keys)
    requires Running(s)
    ensures var w, r := PlayerPhase(s, cfg, keys).world, Step(s, cfg, keys);
      GameOverCount(r.events)
      == CarHitsInPass(Pass(w.player, w.coyoteTime, w.isJumping, w.cleared, [], []), s.entities, s.levelWidth)
  {
    var r1 := PlayerPhase(s, cfg, keys);
    var w := r1.world;
    var acc0 := Pass(w.player, w.coyoteTime, w.isJumping, w.cleared, [], []);
    var r2 := EntityPhase(w);
    var r3 := ScorePhase(r2.world);
    assert Step(s, cfg, keys).events == r1.events + r2.events + r3.events;
    assert r2.events == CollideAll(acc0, s.entities, s.levelWidth).events;
    EveryOverlappingCarCallsGameOver(acc0, s.entities, s.levelWidth);
    NoGameOverCalls(r1.events);
    NoGameOverCalls(r3.events);
    GameOverCountAppend(r1.events + r2.events, r3.events);
    GameOverCountAppend(r1.events, r2.events);
  }

  /** A running step is its three phases in order, their events concatenated. */
  lemma StepByPhases(s: WorldState, cfg: LevelConfig, keys: Keys, r1: StepResult, r2: StepResult, r3: StepResult)
    requires Running(s)
    requires r1 == PlayerPhase(s, cfg, keys) && r2 == EntityPhase(r1.world) && r3 == ScorePhase(r2.world)
    ensures Step(s, cfg, keys).world == r3.world
    ensures Step(s, cfg, keys).events == r1.events + r2.events + r3.events
  {
  }

  /** The player's box as the class stores it. */
  class Body {
    var x: real
    var y: real
    var vx: real
    var vy: real

    constructor (x0: real, y0: real)
      ensures x == x0 && y == y0 && vx == 0.0 && vy == 0.0
    {
      x, y, vx, vy := x0, y0, 0.0, 0.0;
    }
  }

  /** The mutable world record together with the component's countdown and cleared state and
      the events it has emitted so far. */
  class World {
    const player: Body
    var entities: seq<Entity>
    var cameraX: real
    const levelWidth: real
    const goalX: real
    var isJumping: bool
    var coyoteTime: int
    var jumpBuffer: int
    var lastScoreX: real
    var countdown: int
    var cleared: bool
    /** Calls to SoundEngine.play and to the component's callbacks, oldest first. */
    var events: seq<Event>

    function PlayerValue(): Player
      reads player
    {
      Player(player.x, player.y, player.vx, player.vy)
    }

    function State(): WorldState
      reads this, player
    {
      WorldState(PlayerValue(), entities, cameraX, levelWidth, goalX, isJumping, coyoteTime,
                 jumpBuffer, lastScoreX, countdown, cleared)
    }

    constructor ()
      ensures State() == InitialWorld() && events == []
      ensures fresh(player)
    {
      player := new Body(100.0, GROUND_Y - PLAYER_H);
      entities := [];
      cameraX := 0.0;
      levelWidth := 5000.0;
      goalX := 4500.0;
      isJumping := false;
      coyoteTime := 0;
      jumpBuffer := 0;
      lastScoreX := 100.0;
      countdown := 3;
      cleared := false;
      events := [];
    }

    /** One second of the pre-start countdown. */
    method SecondElapsed()
      modifies this`countdown
      ensures countdown == if old(countdown) > 0 then old(countdown) - 1 else old(countdown)
    {
      if countdown > 0 {
        countdown := countdown - 1;
      }
    }

    /** Fills the entity list for a configuration: goal first, then the traffic walk. */
    method GenerateLevel(cfg: LevelConfig, draws: seq<CarDraw>)
      requires TrafficGap(cfg.trafficDensity) > 0.0 && ValidDraws(draws)
      requires |draws| >= CarCount(FIRST_CAR_X, TrafficGap(cfg.trafficDensity), goalX - GOAL_CLEARANCE)
      modifies this`entities
      ensures entities == Generate(goalX, cfg.trafficDensity, draws)
    {
      var ents := [Entity(GoalId, Vec2(goalX, GROUND_Y - GOAL_SIZE), Vec2(GOAL_SIZE, GOAL_SIZE), Vec2(0.0, 0.0), Goal)];
      var gap := TrafficGap(cfg.trafficDensity);
      var limit := goalX - GOAL_CLEARANCE;
      var i := FIRST_CAR_X;
      var k := 0;
      while i < limit
        invariant 0 <= k <= |draws| && ValidDraws(draws[k..])
        invariant |draws[k..]| >= CarCount(i, gap, limit)
        invariant ents + CarsFrom(i, gap, limit, draws[k..]) == Generate(goalX, cfg.trafficDensity, draws)
        decreases Steps(i, gap, limit)
      {
        WalkAdvances(ents, i, gap, limit, draws, k, Generate(goalX, cfg.trafficDensity, draws));
        var d := draws[k];
        ghost var before := ents;
        var style := CAR_STYLES[StyleIndex(d.style)];
        ents := ents + [Entity(CarId(i), Vec2(i, GROUND_Y - style.size.y), style.size, Vec2(-(2.5 + d.speed * 2.5), 0.0), Car)];
        if d.platform > PLATFORM_CHANCE_THRESHOLD {
          ents := ents + [Entity(PlatformId(i), Vec2(i + PLATFORM_AHEAD, GROUND_Y - PLATFORM_HEIGHT_ABOVE_GROUND), PLATFORM_SIZE, Vec2(0.0, 0.0), Platform)];
        }
        assert ents == before + Head(i, d);
        i := i + gap;
        k := k + 1;
      }
      entities := ents;
    }

    /** Velocity update, then the move with the ground stop and the level bounds. */
    method MovePlayer(cfg: LevelConfig, keys: Keys) returns (onGround: bool)
      modifies player
      ensures var m := Integrate(Accelerate(old(PlayerValue()), Axis(keys), cfg), levelWidth);
        PlayerValue() == m.body && onGround == m.onGround
    {
      ghost var p := PlayerValue();
      var ax := 0;
      if keys.right { ax := ax + 1; }
      if keys.left { ax := ax - 1; }
      var friction := if cfg.friction == 0.0 then DEFAULT_FRICTION else cfg.friction;
      var speedMult := if cfg.weather == Snowy then SNOW_SPEED_MULT else 1.0;
      var targetVx := ax as real * MOVE_SPEED * speedMult;
      var vx := player.vx + (targetVx - player.vx) * (1.0 - friction);
      vx := vx + cfg.windSpeed * WIND_FACTOR;
      var vy := player.vy + GRAVITY;
      assert Player(p.x, p.y, vx, vy) == Accelerate(p, Axis(keys), cfg);
      player.vx, player.vy := vx, vy;

      var nextX := player.x + player.vx;
      var nextY := player.y + player.vy;
      onGround := false;
      if nextY + PLAYER_H >= GROUND_Y {
        player.y := GROUND_Y - PLAYER_H;
        player.vy := 0.0;
        onGround := true;
      } else {
        player.y := nextY;
      }
      player.x := Max(0.0, Min(nextX, levelWidth - PLAYER_W));
    }

    /** Coyote time, jump buffer, and the jump impulse. */
    method RunJumpTimers(onGround: bool, jumpHeld: bool)
      modifies this`coyoteTime, this`jumpBuffer, this`isJumping, this`events, player`vy
      ensures var t := JumpControl(onGround, jumpHeld, old(coyoteTime), old(jumpBuffer), old(isJumping));
        && coyoteTime == t.coyote && jumpBuffer == t.buffer && isJumping == t.isJumping
        && player.vy == (if t.fired then JUMP_FORCE else old(player.vy))
        && events == old(events) + (if t.fired then [Play(JumpSound)] else [])
    {
      if onGround {
        coyoteTime := COYOTE_TICKS;
        isJumping := false;
      } else {
        coyoteTime := coyoteTime - 1;
      }
      if jumpHeld {
        jumpBuffer := JUMP_BUFFER_TICKS;
      } else {
        jumpBuffer := jumpBuffer - 1;
      }
      if jumpBuffer > 0 && coyoteTime > 0 && !isJumping {
        player.vy := JUMP_FORCE;
        isJumping := true;
        coyoteTime := 0;
        jumpBuffer := 0;
        events := events + [Play(JumpSound)];
      }
    }

    /** Visits the entity at index i: a car drives and wraps, then the entity is tested against
        the player and the hit, the goal or the platform landing is handled. */
    method VisitEntity(i: nat, ghost acc: Pass, ghost rest: seq<Entity>, ghost events0: seq<Event>)
      requires |acc.done| == i && rest != [] && entities == acc.done + rest
      requires PlayerValue() == acc.body && coyoteTime == acc.coyote && isJumping == acc.isJumping
      requires cleared == acc.cleared && events == events0 + acc.events
      modifies this`entities, this`coyoteTime, this`isJumping, this`cleared, this`events, player`y, player`vy
      ensures var r := Resolve(acc, rest[0], levelWidth);
        && PlayerValue() == r.body && coyoteTime == r.coyote && isJumping == r.isJumping
        && cleared == r.cleared && events == events0 + r.events
        && entities == r.done + rest[1..]
    {
      assert entities[i] == rest[0];
      var ent := entities[i];
      if ent.kind == Car {
        ent := ent.(pos := ent.pos.(x := ent.pos.x + ent.vel.x));
        if ent.pos.x < CAR_WRAP_X {
          ent := ent.(pos := ent.pos.(x := levelWidth));
        }
      }
      entities := entities[i := ent];
      var margin := if ent.kind == Car then HITBOX_MARGIN else 0.0;
      var isColliding :=
        && player.x + margin < ent.pos.x + ent.size.x - margin
        && player.x + PLAYER_W - margin > ent.pos.x + margin
        && player.y + margin < ent.pos.y + ent.size.y - margin
        && player.y + PLAYER_H - margin > ent.pos.y + margin;
      assert isColliding == Overlaps(acc.body, ent);
      if isColliding {
        if ent.kind == Car {
          events := events + [Play(HitSound), GameOverCalled];
        } else if ent.kind == Goal {
          cleared := true;
          events := events + [Play(WinSound), SuccessScheduled];
        } else if ent.kind == Platform {
          if player.vy > 0.0 && player.y + PLAYER_H <= ent.pos.y + LANDING_TOLERANCE {
            player.y := ent.pos.y - PLAYER_H;
            player.vy := 0.0;
            coyoteTime := COYOTE_TICKS;
            isJumping := false;
          }
        }
      }
    }

    /** The entity pass: every entity, in order, with no early exit. */
    method ResolveEntities()
      modifies this`entities, this`coyoteTime, this`isJumping, this`cleared, this`events, player`y, player`vy
      ensures var pass := CollideAll(Pass(old(PlayerValue()), old(coyoteTime), old(isJumping), old(cleared), [], []),
                                     old(entities), levelWidth);
        && PlayerValue() == pass.body && entities == pass.done && coyoteTime == pass.coyote
        && isJumping == pass.isJumping && cleared == pass.cleared && events == old(events) + pass.events
    {
      ghost var acc0 := Pass(PlayerValue(), coyoteTime, isJumping, cleared, [], []);
      ghost var ents0 := entities;
      ghost var events0 := events;
      ghost var acc := acc0;
      var i := 0;
      while i < |entities|
        invariant |entities| == |ents0| && 0 <= i <= |ents0|
        invariant acc == CollideAll(acc0, ents0[..i], levelWidth)
        invariant |acc.done| == i && entities == acc.done + ents0[i..]
        invariant PlayerValue() == acc.body && coyoteTime == acc.coyote && isJumping == acc.isJumping
        invariant cleared == acc.cleared && events == events0 + acc.events
      {
        VisitEntity(i, acc, ents0[i..], events0);
        CollideAllExtend(acc0, ents0, i, levelWidth);
        assert ents0[i..][0] == ents0[i] && ents0[i..][1..] == ents0[i + 1..];
        acc := Resolve(acc, ents0[i], levelWidth);
        i := i + 1;
      }
      assert ents0[..|ents0|] == ents0;
    }

    /** The first phase of the frame. */
    method UpdatePlayer(cfg: LevelConfig, keys: Keys)
      modifies player, this`coyoteTime, this`jumpBuffer, this`isJumping, this`events
      ensures var r := PlayerPhase(old(State()), cfg, keys);
        State() == r.world && events == old(events) + r.events
    {
      var onGround := MovePlayer(cfg, keys);
      RunJumpTimers(onGround, keys.jump);
    }

    /** Distance score against the high-water mark, then camera easing toward the clamped
        target. */
    method UpdateScoreAndCamera()
      modifies this`lastScoreX, this`cameraX, this`events
      ensures var r := ScorePhase(old(State()));
        State() == r.world && events == old(events) + r.events
    {
      if player.x > lastScoreX + SCORE_STRIDE {
        events := events + [ScoreUpdate(SCORE_POINTS)];
        lastScoreX := player.x;
      }
      var targetCamX := Max(0.0, Min(player.x - CANVAS_WIDTH / 2.0, levelWidth - CANVAS_WIDTH));
      cameraX := cameraX + (targetCamX - cameraX) * CAMERA_EASING;
    }

    /** One animation frame: skipped during the countdown and after the goal, otherwise the
        physics, jump timers, entity pass, score and camera in that order. */
    method Tick(cfg: LevelConfig, keys: Keys)
      modifies this, player
      ensures State() == Step(old(State()), cfg, keys).world
      ensures events == old(events) + Step(old(State()), cfg, keys).events
    {
      if countdown > 0 || cleared {
        return;
      }
      ghost var s0, e0 := State(), events;
      UpdatePlayer(cfg, keys);
      ghost var r1, e1 := PlayerPhase(s0, cfg, keys), events;
      assert State() == r1.world && e1 == e0 + r1.events;
      ResolveEntities();
      ghost var r2, e2 := EntityPhase(r1.world), events;
      assert State() == r2.world && e2 == e1 + r2.events;
      UpdateScoreAndCamera();
      ghost var r3 := ScorePhase(r2.world);
      StepByPhases(s0, cfg, keys, r1, r2, r3);
      assert events == e0 + (r1.events + r2.events + r3.events);
    }
  }
}

/** The per-tick kinematics of the player and the coyote-time / jump-buffer controller
    (components/Game.tsx, the first half of `loop`). */
module Physics {
  import opened Constants
  import opened Types
  import opened Numeric

  /** The player's top-left corner and velocity. */
  datatype Player = Player(x: real, y: real, vx: real, vy: real)

  /** Horizontal input axis: right adds one, left subtracts one. */
  function Axis(keys: Keys): (ax: int)
    ensures -1 <= ax <= 1
    ensures ax == 0 <==> keys.right == keys.left
    ensures ax == 1 <==> keys.right && !keys.left
  {
    (if keys.right then 1 else 0) - (if keys.left then 1 else 0)
  }

  /** `config.friction || 0.8`: a friction of zero falls back to the default. */
  function EffectiveFriction(friction: real): real
  {
    if friction == 0.0 then DEFAULT_FRICTION else friction
  }

  function SpeedMultiplier(weather: Weather): real
  {
    if weather == Snowy then SNOW_SPEED_MULT else 1.0
  }

  /** The horizontal velocity the player is driven toward. */
  function TargetVx(ax: int, cfg: LevelConfig): real
  {
    ax as real * MOVE_SPEED * SpeedMultiplier(cfg.weather)
  }

  /** Velocity update: exponential approach to the target, then wind, then gravity.
      The distance to the target shrinks by the friction factor, offset by the wind. */
  function Accelerate(p: Player, ax: int, cfg: LevelConfig): (r: Player)
    ensures r.x == p.x && r.y == p.y
    ensures r.vy == p.vy + GRAVITY
    ensures r.vx - TargetVx(ax, cfg)
         == EffectiveFriction(cfg.friction) * (p.vx - TargetVx(ax, cfg)) + cfg.windSpeed * WIND_FACTOR
  {
    var f := EffectiveFriction(cfg.friction);
    var target := TargetVx(ax, cfg);
    var vx := p.vx + (target - p.vx) * (1.0 - f);
    p.(vx := vx + cfg.windSpeed * WIND_FACTOR, vy := p.vy + GRAVITY)
  }

  function Abs(r: real): real { if r < 0.0 then -r else r }

  lemma MulPositive(a: real, b: real)
    requires 0.0 < a && 0.0 < b
    ensures 0.0 < a * b
  {
  }

  lemma NegateFactor(f: real, d: real)
    ensures f * (-d) == -(f * d)
  {
  }

  lemma OneMinusTimes(f: real, d: real)
    ensures (1.0 - f) * d == d - f * d
  {
  }

  /** e is the fraction f in (0, 1) of a negative d: it stays negative and gets closer to 0. */
  lemma ShrinkNegative(d: real, e: real, f: real)
    requires 0.0 < f < 1.0 && d < 0.0 && e == f * d
    ensures d < e < 0.0
    ensures -e == f * (-d)
  {
    MulPositive(f, -d);
    NegateFactor(f, d);
    MulPositive(1.0 - f, -d);
    OneMinusTimes(f, -d);
  }

  /** The same for a positive d, by symmetry. */
  lemma ShrinkPositive(d: real, e: real, f: real)
    requires 0.0 < f < 1.0 && d > 0.0 && e == f * d
    ensures 0.0 < e < d
  {
    NegateFactor(f, d);
    ShrinkNegative(-d, -e, f);
  }

  /** A value whose distance to t is f times that of v, for f in (0, 1), lies between v and t. */
  lemma ApproachFacts(v: real, r: real, t: real, f: real)
    requires 0.0 < f < 1.0 && r - t == f * (v - t)
    ensures Abs(r - t) == f * Abs(v - t)
    ensures v <= t ==> v <= r <= t
    ensures t <= v ==> t <= r <= v
    ensures v != t ==> Abs(r - t) < Abs(v - t)
  {
    if v - t > 0.0 {
      ShrinkPositive(v - t, r - t, f);
    } else if v - t < 0.0 {
      ShrinkNegative(v - t, r - t, f);
    } else {
      assert r - t == f * 0.0;
    }
  }

  /** Without wind and with a friction strictly between 0 and 1, one tick moves vx toward the
      target without overshooting, and the remaining distance is scaled by the friction. */
  lemma VelocityApproachesTarget(p: Player, ax: int, cfg: LevelConfig)
    requires cfg.windSpeed == 0.0
    requires 0.0 < EffectiveFriction(cfg.friction) < 1.0
    ensures var t, r := TargetVx(ax, cfg), Accelerate(p, ax, cfg);
      && Abs(r.vx - t) == EffectiveFriction(cfg.friction) * Abs(p.vx - t)
      && (p.vx <= t ==> p.vx <= r.vx <= t)
      && (t <= p.vx ==> t <= r.vx <= p.vx)
      && (p.vx != t ==> Abs(r.vx - t) < Abs(p.vx - t))
  {
    ApproachFacts(p.vx, Accelerate(p, ax, cfg).vx, TargetVx(ax, cfg), EffectiveFriction(cfg.friction));
  }

  function Pow(f: real, n: nat): real
  {
    if n == 0 then 1.0 else f * Pow(f, n - 1)
  }

  /** n consecutive velocity updates with the same input. */
  function AccelerateN(p: Player, ax: int, cfg: LevelConfig, n: nat): Player
  {
    if n == 0 then p else Accelerate(AccelerateN(p, ax, cfg, n - 1), ax, cfg)
  }

  /** n steps of the recurrence v' = t + f * (v - t), on plain reals. */
  function Approach(v: real, t: real, f: real, n: nat): real
  {
    if n == 0 then v else t + f * (Approach(v, t, f, n - 1) - t)
  }

  lemma ContractAgain(a: real, q: real, v: real, t: real, f: real, k: real, kk: real)
    requires a - t == f * (q - t) && q - t == k * (v - t) && kk == f * k
    ensures a - t == kk * (v - t)
  {
  }

  /** The recurrence has the closed form t + f^n * (v - t). */
  lemma {:induction false} ApproachClosedForm(v: real, t: real, f: real, n: nat)
    ensures Approach(v, t, f, n) - t == Pow(f, n) * (v - t)
  {
    if n > 0 {
      ApproachClosedForm(v, t, f, n - 1);
      ContractAgain(Approach(v, t, f, n), Approach(v, t, f, n - 1), v, t, f, Pow(f, n - 1), Pow(f, n));
    }
  }

  /** Without wind, one update scales the distance of vx to the target by the friction. */
  lemma WindlessStep(q: Player, ax: int, cfg: LevelConfig)
    requires cfg.windSpeed == 0.0
    ensures Accelerate(q, ax, cfg).vx == TargetVx(ax, cfg) + EffectiveFriction(cfg.friction) * (q.vx - TargetVx(ax, cfg))
  {
  }

  /** Without wind, n velocity updates follow the recurrence toward the target. */
  lemma {:induction false} WindlessUpdatesApproach(p: Player, ax: int, cfg: LevelConfig, n: nat)
    requires cfg.windSpeed == 0.0
    ensures AccelerateN(p, ax, cfg, n).vx == Approach(p.vx, TargetVx(ax, cfg), EffectiveFriction(cfg.friction), n)
  {
    if n > 0 {
      WindlessUpdatesApproach(p, ax, cfg, n - 1);
      WindlessStep(AccelerateN(p, ax, cfg, n - 1), ax, cfg);
    }
  }

  /** Without wind the distance to the target after n updates is friction^n times the start. */
  lemma VelocityConvergesGeometrically(p: Player, ax: int, cfg: LevelConfig, n: nat)
    requires cfg.windSpeed == 0.0
    ensures AccelerateN(p, ax, cfg, n).vx - TargetVx(ax, cfg)
         == Pow(EffectiveFriction(cfg.friction), n) * (p.vx - TargetVx(ax, cfg))
  {
    WindlessUpdatesApproach(p, ax, cfg, n);
    ApproachClosedForm(p.vx, TargetVx(ax, cfg), EffectiveFriction(cfg.friction), n);
  }

  /** Outcome of moving the player by its velocity. */
  datatype Motion = Motion(body: Player, onGround: bool)

  /** Moves the player by its velocity, stops it on the ground and keeps it inside the level. */
  function Integrate(p: Player, levelWidth: real): (m: Motion)
    ensures m.onGround <==> p.y + p.vy + PLAYER_H >= GROUND_Y
    ensures m.onGround ==> m.body.y == GROUND_Y - PLAYER_H && m.body.vy == 0.0
    ensures !m.onGround ==> m.body.y == p.y + p.vy && m.body.vy == p.vy
    ensures m.body.y + PLAYER_H <= GROUND_Y
    ensures m.body.vx == p.vx
    ensures 0.0 <= m.body.x
    ensures PLAYER_W <= levelWidth ==> m.body.x <= levelWidth - PLAYER_W
    ensures 0.0 <= p.x + p.vx <= levelWidth - PLAYER_W ==> m.body.x == p.x + p.vx
    ensures p.x + p.vx < 0.0 || levelWidth < PLAYER_W ==> m.body.x == 0.0
    ensures PLAYER_W <= levelWidth && p.x + p.vx > levelWidth - PLAYER_W ==> m.body.x == levelWidth - PLAYER_W
  {
    var nextX, nextY := p.x + p.vx, p.y + p.vy;
    var grounded := nextY + PLAYER_H >= GROUND_Y;
    var y, vy := if grounded then GROUND_Y - PLAYER_H else nextY, if grounded then 0.0 else p.vy;
    Motion(Player(Clamp(nextX, 0.0, levelWidth - PLAYER_W), y, p.vx, vy), grounded)
  }

  /** The jump controller's state after one tick, and whether the impulse fired. */
  datatype Timers = Timers(coyote: int, buffer: int, isJumping: bool, fired: bool)

  /** Coyote time is refilled on the ground and otherwise counts down; the jump buffer is
      refilled while jump is held and otherwise counts down; the impulse fires when both are
      still positive and no jump is in progress. */
  function JumpControl(onGround: bool, jumpHeld: bool, coyote: int, buffer: int, isJumping: bool): (t: Timers)
    ensures t.fired <==> (jumpHeld || buffer > 1) && (onGround || (coyote > 1 && !isJumping))
    ensures t.fired ==> t.coyote == 0 && t.buffer == 0 && t.isJumping
    ensures !t.fired ==> t.isJumping == (isJumping && !onGround)
    ensures !t.fired ==> t.coyote == (if onGround then COYOTE_TICKS else coyote - 1)
    ensures !t.fired ==> t.buffer == (if jumpHeld then JUMP_BUFFER_TICKS else buffer - 1)
    ensures onGround && !t.fired ==> t.coyote == COYOTE_TICKS && t.buffer <= 0
  {
    var c := if onGround then COYOTE_TICKS else coyote - 1;
    var j := if onGround then false else isJumping;
    var b := if jumpHeld then JUMP_BUFFER_TICKS else buffer - 1;
    if b > 0 && c > 0 && !j then Timers(0, 0, true, true) else Timers(c, b, j, false)
  }

  /** n airborne ticks in which jump is not held. */
  function Airborne(t: Timers, n: nat): Timers
  {
    if n == 0 then t
    else
      var u := Airborne(t, n - 1);
      JumpControl(false, false, u.coyote, u.buffer, u.isJumping)
  }

  lemma {:induction false} AirborneCountsDown(t: Timers, n: nat)
    requires t.buffer <= 0 && !t.fired
    ensures Airborne(t, n) == Timers(t.coyote - n, t.buffer - n, t.isJumping, false)
  {
    if n > 0 {
      AirborneCountsDown(t, n - 1);
    }
  }

  /** Coyote window: after a grounded tick that did not jump, a jump pressed on the k-th
      following airborne tick (the earlier ones without jump held) fires exactly when k <= 7. */
  lemma JumpWindow(jumpHeld: bool, coyote: int, buffer: int, isJumping: bool, k: nat)
    requires k >= 1
    requires !JumpControl(true, jumpHeld, coyote, buffer, isJumping).fired
    ensures var u := Airborne(JumpControl(true, jumpHeld, coyote, buffer, isJumping), k - 1);
      JumpControl(false, true, u.coyote, u.buffer, u.isJumping).fired <==> k <= COYOTE_TICKS - 1
  {
    var t0 := JumpControl(true, jumpHeld, coyote, buffer, isJumping);
    AirborneCountsDown(t0, k - 1);
  }
}

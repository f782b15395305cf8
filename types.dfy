/** Value types shared by the simulation (types.ts) and the fallback level configuration. */
module Types {

  datatype Vec2 = Vec2(x: real, y: real)

  /** The entity kinds the type union admits; the loop reacts to Car, Goal and Platform only. */
  datatype Kind = PlayerKind | Car | Puddle | Platform | Coin | Goal

  /** Entity ids: the source builds the strings 'goal', 'car-<x>' and 'plat-<x>' from the
      x at which the car was placed; the x itself stands for the string here. */
  datatype EntityId = GoalId | CarId(at: real) | PlatformId(at: real)

  datatype Entity = Entity(id: EntityId, pos: Vec2, size: Vec2, vel: Vec2, kind: Kind)

  datatype Weather = Sunny | Rainy | Foggy | Snowy | Windy

  /** A level configuration; the free-text description and strategy fields are not modelled. */
  datatype LevelConfig = LevelConfig(
    weather: Weather,
    trafficDensity: real,
    visibility: real,
    friction: real,
    windSpeed: real,
    levelNumber: int)

  /** The keys held during one tick: right is ArrowRight or 'd', left is ArrowLeft or 'a',
      jump is space, ArrowUp or 'w'. */
  datatype Keys = Keys(right: bool, left: bool, jump: bool)

  datatype Sound = JumpSound | HitSound | WinSound

  /** Everything a tick does to the outside world, in the order it does it. */
  datatype Event =
    | Play(sound: Sound)        // SoundEngine.play
    | GameOverCalled            // onGameOver()
    | SuccessScheduled          // setTimeout(onSuccess, 2000)
    | ScoreUpdate(points: int)  // onScoreUpdate(points)

  /** The configuration used when the level generator call fails. */
  function FallbackConfig(levelNumber: int): (c: LevelConfig)
    ensures c.levelNumber == levelNumber && c.weather == Sunny && c.windSpeed == 0.0
  {
    LevelConfig(Sunny, 3.0, 1.0, 0.9, 0.0, levelNumber)
  }

  /** What the config request resolves to: the generated fields stamped with the requested
      level number, or the fallback when the call failed (None). */
  function ResolveConfig(response: Option<LevelConfig>, levelNumber: int): (c: LevelConfig)
    ensures c.levelNumber == levelNumber
    ensures response.Some? ==> c == response.value.(levelNumber := levelNumber)
    ensures response.None? ==> c == FallbackConfig(levelNumber)
  {
    match response
    case Some(generated) => generated.(levelNumber := levelNumber)
    case None => FallbackConfig(levelNumber)
  }

  datatype Option<+T> = None | Some(value: T)
}

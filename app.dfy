/** The screen and career state machine of the top-level component (App.tsx): the five
    screens, the floor counter, the loaded configuration and the running bonus. */
module App {
  import opened Types

  datatype Status = Start | Briefing | Playing | GameOver | Success

  /** The component's five pieces of state. */
  datatype AppState = AppState(
    status: Status,
    level: int,
    config: Option<LevelConfig>,
    loading: bool,
    score: int)

  const LAST_LEVEL: int := 5
  const LEVEL_BONUS: int := 1500

  function InitialApp(): AppState
  {
    AppState(Start, 1, None, false, 0)
  }

  /** Everything that can happen to the component: the three buttons, the arrival of the
      level configuration requested by startLevel (the service's answer, or None when it
      failed, together with the level it was requested for), and the three callbacks the
      game calls. */
  datatype Action =
    | ClickStart
    | ConfigArrived(response: Option<LevelConfig>, requested: int)
    | ClickBegin
    | LevelSuccess
    | GameOverReported
    | ClickReset
    | AddScore(points: int)

  /** First half of startLevel: the briefing screen, waiting for the configuration. */
  function StartLevel(s: AppState): (r: AppState)
    ensures r.status == Briefing && r.loading
    ensures r.level == s.level && r.score == s.score && r.config == s.config
  {
    s.(loading := true, status := Briefing)
  }

  /** Second half of startLevel: the configuration is stored and loading ends. */
  function ReceiveConfig(s: AppState, response: Option<LevelConfig>, requested: int): (r: AppState)
    ensures r.config == Some(ResolveConfig(response, requested))
    ensures r.config.value.levelNumber == requested && !r.loading
    ensures response.Some? && response.value.levelNumber == requested ==> r.config == response
    ensures r.status == s.status && r.level == s.level && r.score == s.score
  {
    s.(config := Some(ResolveConfig(response, requested)), loading := false)
  }

  /** handleLevelSuccess: the bonus, then either the final screen or the next floor. */
  function LevelCleared(s: AppState): (r: AppState)
    ensures r.score == s.score + LEVEL_BONUS
    ensures s.level >= LAST_LEVEL ==> r.status == Success && r.level == s.level
    ensures s.level < LAST_LEVEL ==> r.status == Start && r.level == s.level + 1
    ensures r.config == s.config && r.loading == s.loading
  {
    var scored := s.(score := s.score + LEVEL_BONUS);
    if s.level >= LAST_LEVEL then scored.(status := Success)
    else scored.(level := s.level + 1, status := Start)
  }

  /** resetGame: back to the first floor with no bonus. */
  function Restart(s: AppState): (r: AppState)
    ensures r.status == Start && r.level == 1 && r.score == 0
    ensures r.config == s.config && r.loading == s.loading
  {
    s.(level := 1, score := 0, status := Start)
  }

  /** The begin button is on screen only in the briefing, with a configuration, not loading. */
  predicate CanBegin(s: AppState)
  {
    s.status == Briefing && s.config.Some? && !s.loading
  }

  /** One action. Buttons act only while the screen that shows them is displayed; the
      configuration and the game's callbacks arrive whatever the screen. */
  function Apply(s: AppState, a: Action): AppState
  {
    match a
    case ClickStart => if s.status == Start then StartLevel(s) else s
    case ConfigArrived(response, requested) => ReceiveConfig(s, response, requested)
    case ClickBegin => if CanBegin(s) then s.(status := Playing) else s
    case LevelSuccess => LevelCleared(s)
    case GameOverReported => s.(status := GameOver)
    case ClickReset => if s.status == GameOver || s.status == Success then Restart(s) else s
    case AddScore(points) => s.(score := s.score + points)
  }

  function Replay(s: AppState, actions: seq<Action>): AppState
    decreases |actions|
  {
    if actions == [] then s else Replay(Apply(s, actions[0]), actions[1..])
  }

  /** What holds in every reachable state: the floor is between 1 and 5, the game is mounted
      only with a configuration and after loading, and the final screen is reached on floor 5. */
  predicate AppInvariant(s: AppState)
  {
    && 1 <= s.level <= LAST_LEVEL
    && (s.status == Playing ==> s.config.Some? && !s.loading)
    && (s.status == Success ==> s.level == LAST_LEVEL)
  }

  lemma InitialAppIsValid()
    ensures AppInvariant(InitialApp())
  {
  }

  lemma ApplyPreservesInvariant(s: AppState, a: Action)
    requires AppInvariant(s)
    ensures AppInvariant(Apply(s, a))
  {
  }

  lemma {:induction false} ReplayPreservesInvariant(s: AppState, actions: seq<Action>)
    requires AppInvariant(s)
    ensures AppInvariant(Replay(s, actions))
    decreases |actions|
  {
    if actions != [] {
      ApplyPreservesInvariant(s, actions[0]);
      ReplayPreservesInvariant(Apply(s, actions[0]), actions[1..]);
    }
  }

  /** The floor counter stays within 1..5 from the first screen on, whatever happens. */
  lemma LevelAlwaysInRange(actions: seq<Action>)
    ensures 1 <= Replay(InitialApp(), actions).level <= LAST_LEVEL
  {
    InitialAppIsValid();
    ReplayPreservesInvariant(InitialApp(), actions);
  }

  /** The game screen is entered only through the begin button, from a loaded briefing. */
  lemma PlayingOnlyThroughBegin(s: AppState, a: Action)
    requires s.status != Playing
    ensures Apply(s, a).status == Playing <==> a == ClickBegin && CanBegin(s)
  {
  }

  /** handleGameOver changes neither the bonus nor the floor. */
  lemma GameOverKeepsScoreAndLevel(s: AppState)
    ensures var r := Apply(s, GameOverReported);
      r.status == GameOver && r.score == s.score && r.level == s.level && r.config == s.config
  {
  }

  /** Starting a level and receiving the configuration requested for the current floor gives
      a loaded briefing for that floor, from which the game can begin. */
  lemma StartThenConfigCanBegin(s: AppState, response: Option<LevelConfig>)
    requires s.status == Start
    ensures var r := Replay(s, [ClickStart, ConfigArrived(response, s.level)]);
      && CanBegin(r) && r.config.value.levelNumber == r.level && r.level == s.level
      && (response.None? ==> r.config.value == FallbackConfig(s.level))
  {
    var actions := [ClickStart, ConfigArrived(response, s.level)];
    var briefing := Apply(s, ClickStart);
    assert actions[1..] == [ConfigArrived(response, s.level)];
    assert Replay(s, actions) == Replay(briefing, [ConfigArrived(response, s.level)]);
    assert [ConfigArrived(response, s.level)][1..] == [];
    assert Replay(briefing, [ConfigArrived(response, s.level)]) == ReceiveConfig(briefing, response, s.level);
  }

  /** The bonus earned by a sequence of actions: 1500 per cleared level plus the distance
      points the game reported. */
  function Earned(actions: seq<Action>): int
  {
    if actions == [] then 0
    else
      (match actions[0]
       case LevelSuccess => LEVEL_BONUS
       case AddScore(points) => points
       case _ => 0) + Earned(actions[1..])
  }

  predicate NoReset(actions: seq<Action>)
  {
    forall i :: 0 <= i < |actions| ==> actions[i] != ClickReset
  }

  /** Between resets the bonus changes only by what is earned: level bonuses and distance
      points. */
  lemma {:induction false} ScoreIsEarned(s: AppState, actions: seq<Action>)
    requires NoReset(actions)
    ensures Replay(s, actions).score == s.score + Earned(actions)
    decreases |actions|
  {
    if actions != [] {
      assert actions[0] != ClickReset;
      ScoreIsEarned(Apply(s, actions[0]), actions[1..]);
    }
  }

  predicate PointsNonNegative(actions: seq<Action>)
  {
    forall i :: 0 <= i < |actions| ==> actions[i].AddScore? ==> actions[i].points >= 0
  }

  lemma {:induction false} EarnedNonNegative(actions: seq<Action>)
    requires PointsNonNegative(actions)
    ensures Earned(actions) >= 0
  {
    if actions != [] {
      EarnedNonNegative(actions[1..]);
    }
  }

  /** Between resets, with the game's non-negative distance points, the bonus never falls. */
  lemma ScoreNeverFallsBetweenResets(s: AppState, actions: seq<Action>)
    requires NoReset(actions) && PointsNonNegative(actions)
    ensures Replay(s, actions).score >= s.score
  {
    ScoreIsEarned(s, actions);
    EarnedNonNegative(actions);
  }

  /** The success callback is not guarded by the screen: one that arrives after a game over
      (the game schedules it 2 s after reaching the goal and never cancels it) pays the bonus
      and leaves the game-over screen for the next floor or the final screen. */
  lemma LateSuccessOverridesGameOver(s: AppState)
    requires s.status == GameOver
    ensures var r := Apply(s, LevelSuccess);
      r.status != GameOver && r.score == s.score + LEVEL_BONUS
  {
  }

  /** The component's state, with one method per handler. */
  class App {
    var status: Status
    var level: int
    var config: Option<LevelConfig>
    var loading: bool
    var score: int

    function Snapshot(): AppState
      reads this
    {
      AppState(status, level, config, loading, score)
    }

    constructor ()
      ensures Snapshot() == InitialApp()
    {
      status, level, config, loading, score := Start, 1, None, false, 0;
    }

    /** startLevel, up to the request for the configuration. */
    method BeginStartLevel()
      modifies this
      ensures Snapshot() == StartLevel(old(Snapshot()))
    {
      loading := true;
      status := Briefing;
    }

    /** startLevel, after the request returns. */
    method FinishStartLevel(response: Option<LevelConfig>, requested: int)
      modifies this
      ensures Snapshot() == ReceiveConfig(old(Snapshot()), response, requested)
    {
      config := Some(ResolveConfig(response, requested));
      loading := false;
    }

    method HandleLevelSuccess()
      modifies this
      ensures Snapshot() == LevelCleared(old(Snapshot()))
    {
      score := score + LEVEL_BONUS;
      if level >= LAST_LEVEL {
        status := Success;
      } else {
        level := level + 1;
        status := Start;
      }
    }

    method HandleGameOver()
      modifies this
      ensures Snapshot() == old(Snapshot()).(status := GameOver)
    {
      status := GameOver;
    }

    method ResetGame()
      modifies this
      ensures Snapshot() == Restart(old(Snapshot()))
    {
      level := 1;
      score := 0;
      status := Start;
    }

    /** The score callback handed to the game. */
    method AddScore(points: int)
      modifies this
      ensures Snapshot() == old(Snapshot()).(score := old(score) + points)
    {
      score := score + points;
    }

    /** Delivers one action: a button press reaches its handler only while its screen is shown;
        the configuration and the game's callbacks always do. */
    method Dispatch(a: Action)
      modifies this
      ensures Snapshot() == Apply(old(Snapshot()), a)
    {
      match a {
        case ClickStart =>
          if status == Start {
            BeginStartLevel();
          }
        case ConfigArrived(response, requested) =>
          FinishStartLevel(response, requested);
        case ClickBegin =>
          if status == Briefing && config.Some? && !loading {
            status := Playing;
          }
        case LevelSuccess =>
          HandleLevelSuccess();
        case GameOverReported =>
          HandleGameOver();
        case ClickReset =>
          if status == GameOver || status == Success {
            ResetGame();
          }
        case AddScore(points) =>
          AddScore(points);
      }
    }
  }
}

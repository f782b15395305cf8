# Mario: Rush Hour — a Dafny model of the game core

This project models the core of a small side-scrolling browser game. The player walks right
along a road to the office, jumps over cars that drive left, and may land on one-way platforms.
The game has five floors (levels), and each has a weather configuration that changes friction,
wind and traffic density.

The model covers two parts of the game:

- **The game world** (`components/Game.tsx`):
  - the mutable world record;
  - level generation (the goal, a row of cars, random platforms);
  - the per-frame loop: velocity update, movement with the ground stop and the level bounds, coyote time and the jump buffer, the entity pass (cars driving and wrapping, box collisions, car hits, reaching the goal, one-way platform landings), the distance score and the camera.
- **The screen and career state machine** (`App.tsx`): start, briefing, playing, game over and promotion; the floor counter; the loaded configuration; the running bonus.

Each part has two layers:

- **Specification.** Pure functions over values: `Game.Step` / `Game.Run` and `App.Apply` / `App.Replay`.
- **Implementation.** Classes that mirror the source's mutable state: `Game.World` with its player `Game.Body`, and `App.App`. Each method is proved to produce exactly the state the specification function gives. The lemmas state the game's promises about the specification functions.

Modules:

| file | module | content |
|---|---|---|
| constants.dfy | `Constants` | `constants.ts` and the numbers written inline in the loop |
| types.dfy | `Types` | entities, configuration, keys, emitted events, fallback configuration |
| numeric.dfy | `Numeric` | `Math.max`, `Math.min` and the clamp built from them |
| physics.dfy | `Physics` | velocity update, move and clamp, jump controller |
| collision.dfy | `Collision` | car motion, overlap test, per-kind reactions, the whole entity pass |
| progress.dfy | `Progress` | distance score and camera easing |
| level.dfy | `Level` | level generation as a function of the random draws |
| game.dfy | `Game` | world record, `Step`, `Run`, class `World` |
| app.dfy | `App` | screen state machine, class `App` |

How the model represents the source:

- **Numbers.** Positions and velocities are exact `real`s.
- **Outside effects.** Sounds and callbacks are recorded as a sequence of `Event`s, in the order the loop issues them.
- **Keys.** The keys held during a frame are a `Keys` parameter.
- **Random numbers.** The `Math.random()` results drawn during level generation are a sequence of `CarDraw` parameters, one per car, in the order the source draws them.
- **The configuration service.** Its answer is a parameter: `Some` of the returned configuration, or `None` when the request failed, in which case the fallback of `services/geminiService.ts` is used.

## Model

| member | source | states |
|---|---|---|
| Types.FallbackConfig | services/geminiService.ts:50-59 | the fallback is sunny, windless and carries the requested level number |
| Types.ResolveConfig | services/geminiService.ts:42-59 | the stored configuration always has the requested level number; a returned configuration is used with that number, and a failure gives the fallback |
| Physics.Axis | components/Game.tsx:106-108 | the input axis is -1, 0 or 1; it is 0 exactly when right and left agree, and 1 exactly when only right is held |
| Physics.Accelerate | components/Game.tsx:110-115 | position is unchanged and gravity is added to vy; the distance of vx to the target speed is scaled by the effective friction and then offset by wind times 0.03 |
| Physics.VelocityApproachesTarget | components/Game.tsx:110-113 | with no wind and a friction in (0,1), one update moves vx toward the target without overshooting, and the remaining distance is exactly friction times the previous one |
| Physics.ApproachClosedForm | components/Game.tsx:110-113 | n steps of the friction recurrence v' = t + f*(v - t) leave a distance to t of exactly f^n times the initial one |
| Physics.WindlessUpdatesApproach | components/Game.tsx:110-115 | with no wind, n velocity updates under the same input follow that recurrence toward the target speed |
| Physics.VelocityConvergesGeometrically | components/Game.tsx:110-115 | with no wind, after n updates under the same input the distance of vx to the target is friction^n times the initial distance |
| Physics.Integrate | components/Game.tsx:117-128 | the player is grounded exactly when the next bottom edge reaches the road, and is then placed on the road with vy 0; the bottom edge never goes below the road; x stays within [0, levelWidth-32] and is unclamped inside that range; a move past the left edge, or a level narrower than the player, gives x = 0, and a move past the right edge gives x = levelWidth-32 |
| Physics.JumpControl | components/Game.tsx:130-139 | the impulse fires exactly when (jump is held or the buffer was above 1) and (grounded, or coyote time was above 1 with no jump in progress); a fired jump zeroes both counters and sets isJumping; otherwise the counters are refilled or decremented |
| Physics.AirborneCountsDown | components/Game.tsx:130-131 | in the air with no jump held and nothing buffered (buffer at most 0, no jump fired), coyote time and the buffer both count down by one per tick and no jump fires |
| Physics.JumpWindow | components/Game.tsx:130-133 | after a grounded tick that did not jump, a jump pressed on the k-th following airborne tick fires exactly when k <= 7 |
| Collision.Margin | components/Game.tsx:147 | no ensures of its own: 6 for cars and 0 for every other kind; its effect is stated by Collision.LargerMarginOnlyRemovesHits and Collision.CarMarginForgives |
| Collision.OverlapsWith | components/Game.tsx:148-153 | no ensures of its own: the strict overlap of the two boxes, each shrunk by the margin; stated by Collision.TouchingNeverCollides and Collision.LargerMarginOnlyRemovesHits |
| Collision.Overlaps | components/Game.tsx:147-153 | no ensures of its own: the loop's collision test with the kind's margin; stated by Collision.CarMarginForgives, Collision.CarHit, Collision.GoalReached and Collision.PlatformIsOneWay |
| Collision.Lands | components/Game.tsx:159 | no ensures of its own: falling with the feet within 15 of the platform top; stated by Collision.PlatformIsOneWay |
| Collision.CollideAll | components/Game.tsx:141-167 | no ensures of its own: the forEach over the entities as Collision.Resolve applied to each in order; stated by Collision.CollideAllFrame and Collision.EveryOverlappingCarCallsGameOver |
| Collision.TouchingNeverCollides | components/Game.tsx:147-153 | boxes that only touch or are apart on either axis never collide, whatever the margin |
| Collision.LargerMarginOnlyRemovesHits | components/Game.tsx:147-153 | a larger margin can only remove collisions |
| Collision.CarMarginForgives | components/Game.tsx:147-153 | in one configuration: a grounded player 5 units inside a 75-by-35 car's nominal box collides with it under no margin but is not hit under the 6-unit car margin |
| Collision.MoveEntity | components/Game.tsx:142-145 | only cars move; a car moves by its velocity, or reappears at levelWidth once past x = -200; id, size, velocity, kind and y never change |
| Collision.Resolve | components/Game.tsx:141-167 | visiting one entity appends the moved entity, keeps the player's x and vx, and never moves the player down |
| Collision.CarHit | components/Game.tsx:156 | an overlapping car plays the hit sound and calls onGameOver, with no guard against earlier hits; nothing else changes |
| Collision.GoalReached | components/Game.tsx:157 | touching the goal sets cleared, plays the win sound and schedules onSuccess |
| Collision.PlatformIsOneWay | components/Game.tsx:158-165 | an overlapping, falling player whose feet are within 15 of the top lands exactly on the top, with vy 0, coyote time 8 and no jump in progress; otherwise, and whenever vy <= 0, the player passes through unchanged |
| Collision.CollideAllFrame | components/Game.tsx:141-167 | the pass visits every entity once and in order and moves each by MoveEntity; it keeps the player's x and vx, never moves it down, only appends hit and goal events, and never clears cleared |
| Collision.EveryOverlappingCarCallsGameOver | components/Game.tsx:141-156 | on any course, one pass calls onGameOver exactly once per car that, after moving, overlaps the player as the pass has left it when that car's turn comes (earlier platform landings included) |
| Progress.ScoreStep | components/Game.tsx:169 | at most one event, ten points, issued exactly when the player is more than 100 past the mark; the mark then moves to the player and otherwise stays, so it never falls |
| Progress.ScoreRunIsProgressOnly | components/Game.tsx:169 | over any sequence of positions the mark never falls, every event is a ten-point update, there is at most one per tick, and there is none while the player stays within 100 of the mark |
| Progress.ScoreExample | components/Game.tsx:169 | concrete runs: from mark 100, positions 225 and 350 score twice; positions 225, 300, 240 and 320 score once |
| Progress.CameraTarget | components/Game.tsx:171 | the target lies in [0, levelWidth-800] and centres the player when that is possible; it is 0 when centring would scroll left of the level or the level is narrower than the canvas, and levelWidth-800 when centring would scroll past the end |
| Progress.EaseCamera | components/Game.tsx:172 | the camera's distance to the target shrinks to 0.9 of what it was |
| Progress.CameraStaysInRange | components/Game.tsx:171-172 | a camera inside [0, levelWidth-800] stays inside it |
| Level.TrafficGap | components/Game.tsx:80 | no ensures of its own: 1500 - 110 * density; stated by Level.TrafficGapPositiveAndDecreasing |
| Level.GoalEntity | components/Game.tsx:78 | no ensures of its own: the goal box at goalX; stated by Level.GeneratedLevelLayout |
| Level.CarEntity | components/Game.tsx:82-89 | no ensures of its own: the car built from one draw; stated by Level.StyleIndex and Level.GeneratedTrafficFollowsDraws |
| Level.PlatformEntity | components/Game.tsx:90-92 | no ensures of its own: the platform 350 ahead of a car; stated by Level.GeneratedTrafficFollowsDraws |
| Level.CarsFrom | components/Game.tsx:81-93 | no ensures of its own: the generation loop from one grid point on; stated by Level.CarCountIsGridPointsBeforeLimit and Level.GeneratedTrafficFollowsDraws |
| Level.Generate | components/Game.tsx:75-95 | no ensures of its own: the goal followed by the generated traffic; stated by Level.GeneratedLevelLayout and Level.DenserTrafficMoreCars |
| Level.TrafficGapPositiveAndDecreasing | components/Game.tsx:80 | every density on the 1..10 scale gives a positive gap, and denser traffic gives a strictly smaller gap |
| Level.StyleIndex | components/Game.tsx:82 | the style index drawn from a random number in [0,1) is one of the four styles |
| Level.CarCountIsGridPointsBeforeLimit | components/Game.tsx:81 | the generation loop places exactly one car per grid point 800 + k*gap that lies before goalX - 400 |
| Level.GeneratedTrafficFollowsDraws | components/Game.tsx:80-92 | the k-th car sits at grid point k and is built from the k-th draw (style, speed); it is followed by a platform exactly when that draw's third number exceeds 0.4; every platform comes right after its car, 350 ahead, never before entity 2 |
| Level.GeneratedLevelLayout | components/Game.tsx:75-95 | the goal comes first; the cars' x are exactly the grid points before goalX - 400, in order; every other entity is a generated car or platform; the k-th car follows the k-th draw and has a platform right after it exactly when that draw exceeds 0.4; every platform sits 350 ahead of the car just before it; ids are unique |
| Level.DenserTrafficMoreCars | components/Game.tsx:80-81 | higher traffic density never produces fewer cars |
| Game.InitialWorld | components/Game.tsx:54-68 | no ensures of its own: the record the component starts with; stated by Game.InitialWorldIsValid |
| Game.Running | components/Game.tsx:98-101 | no ensures of its own: physics runs only with the countdown over and the goal not reached; stated by Game.FrozenRunIsSilent and Game.StepBounds |
| Game.PlayerPhase | components/Game.tsx:106-139 | no ensures of its own: velocity update, move, clamp, jump timers and impulse; stated by Game.StepBounds, Game.StepVelocity and Game.GroundedPlayerStays |
| Game.EntityPhase | components/Game.tsx:141-167 | no ensures of its own: the entity pass applied to the world; stated by Game.StepMovesEntities, Game.NoLandingAtRest and Game.StepGameOverPerCar |
| Game.ScorePhase | components/Game.tsx:169-172 | no ensures of its own: the distance score and the camera easing; stated by Game.StepScore and Game.StepPreservesInvariant |
| Game.Step | components/Game.tsx:97-176 | no ensures of its own: one frame, frozen or the three phases in order; stated by Game.StepBounds, Game.StepPreservesInvariant, Game.StepVelocity, Game.StepMovesEntities, Game.StepScore and Game.StepGameOverPerCar |
| Game.Run | components/Game.tsx:97-176 | no ensures of its own: successive frames, events in order; stated by Game.RunPreservesInvariant, Game.FrozenRunIsSilent and Game.RunScoreMarkNeverFalls |
| Game.InitialWorldIsValid | components/Game.tsx:54-64 | the initial world satisfies the world invariant |
| Game.StepBounds | components/Game.tsx:97-128 | a running tick leaves the player within [0, levelWidth-32] and not below the road; a frozen tick changes nothing and emits nothing |
| Game.StepPreservesInvariant | components/Game.tsx:97-176 | one tick preserves the world invariant: player inside the level, player not below the road, camera inside the scroll range |
| Game.RunPreservesInvariant | components/Game.tsx:97-176 | any sequence of ticks preserves the world invariant |
| Game.FrozenRunIsSilent | components/Game.tsx:98-101 | during the countdown or after the goal, any number of frames change nothing and emit nothing |
| Game.GroundedPlayerStays | components/Game.tsx:115-165 | a player on the road with no jump pressed or buffered stays exactly on the road, at rest, with coyote time 8 and no jump in progress |
| Game.NoLandingAtRest | components/Game.tsx:158-165 | with vy <= 0 the entity pass leaves the player and the jump state untouched |
| Game.StepVelocity | components/Game.tsx:110-167 | after the velocity update, nothing else in the tick changes vx |
| Game.StepMovesEntities | components/Game.tsx:141-145 | a running tick moves every entity by MoveEntity, keeping the list's length and order; the goal and platforms stay where they are |
| Game.StepScore | components/Game.tsx:169 | a tick issues one score update exactly when the player ends it more than 100 past the mark, and none otherwise; the mark then moves to the player, and never falls |
| Game.RunScoreMarkNeverFalls | components/Game.tsx:169 | over any run the score mark never falls |
| Game.StepGameOverPerCar | components/Game.tsx:97-167 | on any course, a running tick calls onGameOver exactly once per car that, after moving, overlaps the player as it stands at that car's turn of the entity loop |
| Game.Body.constructor | components/Game.tsx:55 | the player box starts at the given position, at rest |
| Game.World.constructor | components/Game.tsx:54-68 | the world record starts as the source's initial record, with countdown 3, not cleared, and no events |
| Game.World.SecondElapsed | components/Game.tsx:193-198 | each elapsed second decrements a positive countdown; a countdown at zero stays there |
| Game.World.GenerateLevel | components/Game.tsx:75-95 | the loop fills the entity list with exactly the level that Level.Generate describes |
| Game.World.MovePlayer | components/Game.tsx:106-128 | the player becomes Integrate of Accelerate of the old player, and the grounded flag is returned |
| Game.World.RunJumpTimers | components/Game.tsx:130-139 | the counters and isJumping become those of JumpControl; a fired jump sets vy to -10.5 and plays the jump sound |
| Game.World.VisitEntity | components/Game.tsx:142-166 | one iteration of the entity loop performs Collision.Resolve on the mutable state |
| Game.World.ResolveEntities | components/Game.tsx:141-167 | the loop over the entities leaves the player, the jump state, cleared and the entity list exactly as Collision.CollideAll computes them from the state before the loop, and appends that pass's events |
| Game.World.UpdatePlayer | components/Game.tsx:106-139 | the movement and jump-timer part of the tick matches the specification |
| Game.World.UpdateScoreAndCamera | components/Game.tsx:169-172 | the score and camera part of the tick matches the specification |
| Game.World.Tick | components/Game.tsx:97-176 | one animation frame on the mutable world equals Game.Step, and the emitted events are appended |
| App.StartLevel | App.tsx:14-16 | starting a level shows the briefing with loading set; floor, bonus and configuration are kept |
| App.ReceiveConfig | App.tsx:17-19 | the stored configuration is exactly the service's answer resolved for the requested level (the fallback on failure), so it carries the requested level number; loading ends, and screen, floor and bonus are kept |
| App.LevelCleared | App.tsx:22-30 | a cleared level always adds 1500; on floor 5 or above it shows the final screen on the same floor, and otherwise goes to the next floor's start screen |
| App.Restart | App.tsx:36-40 | reset gives floor 1, bonus 0 and the start screen |
| App.InitialApp | App.tsx:8-12 | no ensures of its own: the start screen on floor 1 with no configuration and bonus 0; stated by App.InitialAppIsValid and App.LevelAlwaysInRange |
| App.CanBegin | App.tsx:92-145 | no ensures of its own: the begin button is shown only on the briefing screen with a configuration and loading over; stated by App.PlayingOnlyThroughBegin and App.StartThenConfigCanBegin |
| App.Apply | App.tsx:14-191 | no ensures of its own: each action, with each button acting only on the screen that renders it (lines 64, 92, 97, 140, 161, 177); stated by App.ApplyPreservesInvariant, App.PlayingOnlyThroughBegin, App.GameOverKeepsScoreAndLevel, App.ScoreIsEarned and App.LateSuccessOverridesGameOver |
| App.InitialAppIsValid | App.tsx:8-12 | the initial state satisfies the application invariant |
| App.ApplyPreservesInvariant | App.tsx:14-40 | every action keeps the invariant: floor in 1..5; the game is mounted only with a loaded configuration; the final screen is only on floor 5 |
| App.ReplayPreservesInvariant | App.tsx:14-40 | any sequence of actions keeps the invariant |
| App.LevelAlwaysInRange | App.tsx:9-40 | from the first screen on, the floor counter is always between 1 and 5 |
| App.PlayingOnlyThroughBegin | App.tsx:92-145 | the game screen is entered exactly through the begin button, from a briefing with a configuration and loading finished |
| App.GameOverKeepsScoreAndLevel | App.tsx:32-34 | game over changes neither the bonus, nor the floor, nor the configuration |
| App.StartThenConfigCanBegin | App.tsx:14-20 | starting a level and receiving its configuration gives a loaded briefing for the same floor, with the fallback on failure |
| App.ScoreIsEarned | App.tsx:22-40 | between resets, the bonus changes by exactly 1500 per cleared level plus the reported distance points |
| App.ScoreNeverFallsBetweenResets | App.tsx:22-40 | with non-negative distance points, the bonus never falls between resets |
| App.LateSuccessOverridesGameOver | App.tsx:22-34 | a success callback arriving after a game over pays the bonus and leaves the game-over screen |
| App.App.constructor | App.tsx:8-12 | the component starts on the start screen, floor 1, with no configuration, not loading, and bonus 0 |
| App.App.BeginStartLevel | App.tsx:14-16 | the synchronous half of startLevel matches App.StartLevel |
| App.App.FinishStartLevel | App.tsx:17-19 | the asynchronous half of startLevel matches App.ReceiveConfig |
| App.App.HandleLevelSuccess | App.tsx:22-30 | handleLevelSuccess matches App.LevelCleared |
| App.App.HandleGameOver | App.tsx:32-34 | handleGameOver sets the game-over screen and nothing else |
| App.App.ResetGame | App.tsx:36-40 | resetGame matches App.Restart |
| App.App.AddScore | App.tsx:157 | the score callback adds the reported points to the bonus |
| App.App.Dispatch | App.tsx:83-191 | delivering any action to the component has the effect App.Apply gives: buttons act only on their screen, callbacks always act |

## Left out

- Rendering is not modelled. This covers the canvas drawing, the weather overlays, the visibility fog, the progress bars and all JSX. It is presentation only.
- Sound synthesis is not modelled. Only which sound is played, and when, is recorded, as an `Event`.
- Keyboard listeners are not modelled. The keys held during a frame are given to each tick as `Keys`.
- Frame and timer scheduling is not modelled: `requestAnimationFrame`, the `setFrame` re-render, and the 1-second and 2-second timers. A frame is one call of `Tick` and a countdown second is one call of `SecondElapsed`. The success callback scheduled 2 s after the goal is the `SuccessScheduled` event; its later arrival is the `LevelSuccess` action of the App, which may come at any time.
- React's deferred state updates are not modelled. `setCleared(true)` takes effect in the model before the next frame. The model also does not cover a frame that runs an older closure of `loop` or of `handleLevelSuccess`, which would see a stale `cleared` or floor number.
- App.Apply: its `LevelSuccess` case tests the floor the component holds when the callback arrives, while the source's timer calls the `handleLevelSuccess` of the render that mounted the game (components/Game.tsx:157, App.tsx:24), whose `level >= 5` test reads that render's floor. Only the increment `prev => prev + 1` reads the current floor in both. The two differ only for a success timer that outlives its game. Example: on floor 5 the player touches the goal and a car in one tick, the game-over screen shows, TRY AGAIN within 2 s sets floor 1, and then the timer fires. The source shows the final screen on floor 1 with bonus 1500; the model gives the start screen of floor 2. So the conjunct "the final screen is only on floor 5" of `AppInvariant`, proved by App.ApplyPreservesInvariant and App.ReplayPreservesInvariant, holds for the model only, not for such late timers in the source.
- The game's callbacks are accepted in every App state, which is more than the source allows. In the source, only the mounted game calls them, except for the success timer, which is never cancelled.
- JavaScript number semantics are not modelled: there is no floating-point rounding and no NaN. `config.friction || 0.8` also maps NaN to 0.8, but the model maps only 0.
- The request to the configuration service is I/O and is not modelled. Its answer is a parameter, and the free-text `description` and `strategy` fields are not kept.
- Game.World.GenerateLevel: requires a positive traffic gap. With a traffic density of 1500/110 or more, the source's generation loop never terminates. The configuration describes densities of 1 to 10, which all give a positive gap.
- Game.World.GenerateLevel: requires enough random draws for every car, supplied in advance rather than drawn one by one.
- Entity ids are not strings. `'goal'`, `'car-<x>'` and `'plat-<x>'` become the values `GoalId`, `CarId(x)` and `PlatformId(x)`.
- `components/WeatherOverlay.tsx` is not part of this model.

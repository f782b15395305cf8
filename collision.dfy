/** The entity pass of the game loop (components/Game.tsx, the `forEach` over the entities):
    cars move and wrap, every entity is tested for a strict box overlap with the player, and
    the result is dispatched by kind. */
module Collision {
  import opened Constants
  import opened Types
  import opened Physics

  /** Cars get the forgiving hit-box inset; every other kind is tested on its nominal box. */
  function Margin(kind: Kind): real
  {
    if kind == Car then HITBOX_MARGIN else 0.0
  }

  /** Strict overlap of the player box and the entity box, both shrunk by margin m on every side. */
  predicate OverlapsWith(p: Player, e: Entity, m: real)
  {
    && p.x + m < e.pos.x + e.size.x - m
    && p.x + PLAYER_W - m > e.pos.x + m
    && p.y + m < e.pos.y + e.size.y - m
    && p.y + PLAYER_H - m > e.pos.y + m
  }

  /** The collision test the loop uses: the margin depends on the entity's kind. */
  predicate Overlaps(p: Player, e: Entity)
  {
    OverlapsWith(p, e, Margin(e.kind))
  }

  /** Boxes that only touch, or are apart, on either axis never collide, whatever the margin. */
  lemma TouchingNeverCollides(p: Player, e: Entity, m: real)
    requires m >= 0.0
    requires || p.x + PLAYER_W <= e.pos.x || e.pos.x + e.size.x <= p.x
             || p.y + PLAYER_H <= e.pos.y || e.pos.y + e.size.y <= p.y
    ensures !OverlapsWith(p, e, m)
  {
  }

  /** A larger margin only removes collisions: an overlap of the shrunk boxes is an overlap of
      the nominal boxes. */
  lemma LargerMarginOnlyRemovesHits(p: Player, e: Entity, m1: real, m2: real)
    requires m1 <= m2
    ensures OverlapsWith(p, e, m2) ==> OverlapsWith(p, e, m1)
  {
  }

  /** A player grounded just left of a car, 5 units into its nominal box, is not hit; with no
      margin the same boxes would collide. */
  lemma CarMarginForgives()
    ensures var p := Player(1000.0 - PLAYER_W + 5.0, GROUND_Y - PLAYER_H, 0.0, 0.0);
      var car := Entity(CarId(1000.0), Vec2(1000.0, GROUND_Y - 35.0), Vec2(75.0, 35.0), Vec2(-3.0, 0.0), Car);
      OverlapsWith(p, car, 0.0) && !Overlaps(p, car)
  {
  }

  /** One tick of an entity's own motion: cars drive by their velocity and reappear at the
      right end of the level once they are past x = -200; nothing else moves. */
  function MoveEntity(e: Entity, levelWidth: real): (r: Entity)
    ensures r.id == e.id && r.size == e.size && r.vel == e.vel && r.kind == e.kind
    ensures r.pos.y == e.pos.y
    ensures e.kind != Car ==> r == e
    ensures e.kind == Car && e.pos.x + e.vel.x >= CAR_WRAP_X ==> r.pos.x == e.pos.x + e.vel.x
    ensures e.kind == Car && e.pos.x + e.vel.x < CAR_WRAP_X ==> r.pos.x == levelWidth
    ensures e.kind == Car && levelWidth >= CAR_WRAP_X ==> r.pos.x >= CAR_WRAP_X
  {
    if e.kind != Car then e
    else
      var x := e.pos.x + e.vel.x;
      e.(pos := e.pos.(x := if x < CAR_WRAP_X then levelWidth else x))
  }

  /** The state the entity pass carries from one entity to the next. `done` holds the entities
      already visited, as moved. */
  datatype Pass = Pass(
    body: Player,
    coyote: int,
    isJumping: bool,
    cleared: bool,
    events: seq<Event>,
    done: seq<Entity>)

  /** The one-way landing condition: falling, with the feet no lower than 15 below the top. */
  predicate Lands(p: Player, top: real)
  {
    p.vy > 0.0 && p.y + PLAYER_H <= top + LANDING_TOLERANCE
  }

  /** Visits one entity: move it, test it against the player, react by kind. */
  function Resolve(acc: Pass, e: Entity, levelWidth: real): (r: Pass)
    ensures r.done == acc.done + [MoveEntity(e, levelWidth)]
    ensures r.body.x == acc.body.x && r.body.vx == acc.body.vx
    ensures r.body.y <= acc.body.y
  {
    var m := MoveEntity(e, levelWidth);
    var next := acc.(done := acc.done + [m]);
    if !Overlaps(acc.body, m) then next
    else match m.kind
      case Car => next.(events := acc.events + [Play(HitSound), GameOverCalled])
      case Goal => next.(cleared := true, events := acc.events + [Play(WinSound), SuccessScheduled])
      case Platform =>
        if Lands(acc.body, m.pos.y) then
          next.(body := acc.body.(y := m.pos.y - PLAYER_H, vy := 0.0), coyote := COYOTE_TICKS, isJumping := false)
        else next
      case _ => next
  }

  /** A car hit plays the hit sound and calls onGameOver, with no guard against earlier hits;
      nothing else about the pass changes. */
  lemma CarHit(acc: Pass, e: Entity, levelWidth: real)
    requires e.kind == Car
    ensures var m, r := MoveEntity(e, levelWidth), Resolve(acc, e, levelWidth);
      && r.events == acc.events + (if Overlaps(acc.body, m) then [Play(HitSound), GameOverCalled] else [])
      && r.body == acc.body && r.coyote == acc.coyote && r.isJumping == acc.isJumping
      && r.cleared == acc.cleared
  {
  }

  /** Touching the goal sets cleared, plays the win sound and schedules onSuccess. */
  lemma GoalReached(acc: Pass, e: Entity, levelWidth: real)
    requires e.kind == Goal
    ensures var r := Resolve(acc, e, levelWidth);
      && r.cleared == (acc.cleared || Overlaps(acc.body, e))
      && r.events == acc.events + (if Overlaps(acc.body, e) then [Play(WinSound), SuccessScheduled] else [])
      && r.body == acc.body && r.coyote == acc.coyote && r.isJumping == acc.isJumping
  {
  }

  /** One-way platforms: an overlapping, falling player whose feet are within 15 of the top
      comes to rest exactly on the top with the jump state of a grounded player; in every
      other case, and in particular when rising or at rest (vy <= 0), it passes unchanged. */
  lemma PlatformIsOneWay(acc: Pass, e: Entity, levelWidth: real)
    requires e.kind == Platform
    ensures var r := Resolve(acc, e, levelWidth);
      && r.events == acc.events && r.cleared == acc.cleared
      && (Overlaps(acc.body, e) && Lands(acc.body, e.pos.y) ==>
            r.body.y + PLAYER_H == e.pos.y && r.body.vy == 0.0 && r.body.x == acc.body.x
            && r.coyote == COYOTE_TICKS && !r.isJumping)
      && (!(Overlaps(acc.body, e) && Lands(acc.body, e.pos.y)) ==>
            r.body == acc.body && r.coyote == acc.coyote && r.isJumping == acc.isJumping)
      && (acc.body.vy <= 0.0 ==> r.body == acc.body)
  {
  }

  /** The whole pass, visiting the entities in order with no early exit. */
  function CollideAll(acc: Pass, ents: seq<Entity>, levelWidth: real): Pass
  {
    if ents == [] then acc
    else Resolve(CollideAll(acc, ents[..|ents| - 1], levelWidth), ents[|ents| - 1], levelWidth)
  }

  /** Visiting one more entity extends the pass by one Resolve step. */
  lemma CollideAllExtend(acc: Pass, ents: seq<Entity>, i: nat, levelWidth: real)
    requires i < |ents|
    ensures CollideAll(acc, ents[..i + 1], levelWidth)
         == Resolve(CollideAll(acc, ents[..i], levelWidth), ents[i], levelWidth)
  {
    assert ents[..i + 1][..i] == ents[..i];
  }

  /** Events the pass may emit. */
  predicate PassEvent(ev: Event)
  {
    ev == Play(HitSound) || ev == GameOverCalled || ev == Play(WinSound) || ev == SuccessScheduled
  }

  /** The pass visits every entity exactly once and in order, moves each by MoveEntity, never
      moves the player sideways or down, only appends hit/goal events, and never clears
      `cleared`. */
  lemma {:induction false} CollideAllFrame(acc: Pass, ents: seq<Entity>, levelWidth: real)
    ensures var r := CollideAll(acc, ents, levelWidth);
      && |r.done| == |acc.done| + |ents|
      && r.done[..|acc.done|] == acc.done
      && (forall i :: 0 <= i < |ents| ==> r.done[|acc.done| + i] == MoveEntity(ents[i], levelWidth))
      && r.body.x == acc.body.x && r.body.vx == acc.body.vx && r.body.y <= acc.body.y
      && |r.events| >= |acc.events| && r.events[..|acc.events|] == acc.events
      && (forall j :: |acc.events| <= j < |r.events| ==> PassEvent(r.events[j]))
      && (acc.cleared ==> r.cleared)
  {
    if ents != [] {
      var init := ents[..|ents| - 1];
      CollideAllFrame(acc, init, levelWidth);
      var mid := CollideAll(acc, init, levelWidth);
      var r := Resolve(mid, ents[|ents| - 1], levelWidth);
      assert r.done[..|mid.done|] == mid.done;
      forall i | 0 <= i < |ents|
        ensures r.done[|acc.done| + i] == MoveEntity(ents[i], levelWidth)
      {
        if i < |ents| - 1 {
          assert init[i] == ents[i];
        }
      }
    }
  }

  /** The number of GameOverCalled events in a sequence. */
  function GameOverCount(evs: seq<Event>): nat
  {
    if evs == [] then 0
    else GameOverCount(evs[..|evs| - 1]) + (if evs[|evs| - 1] == GameOverCalled then 1 else 0)
  }

  lemma {:induction false} GameOverCountAppend(a: seq<Event>, b: seq<Event>)
    ensures GameOverCount(a + b) == GameOverCount(a) + GameOverCount(b)
  {
    if b != [] {
      assert (a + b)[..|a + b| - 1] == a + b[..|b| - 1];
      GameOverCountAppend(a, b[..|b| - 1]);
    } else {
      assert a + b == a;
    }
  }

  /** The number of cars among ents that, once moved, overlap the player box as the pass
      from acc has left it when the car's turn comes (a platform landing earlier in the pass
      may have lifted it). */
  function CarHitsInPass(acc: Pass, ents: seq<Entity>, levelWidth: real): nat
  {
    if ents == [] then 0
    else
      var init, m := ents[..|ents| - 1], MoveEntity(ents[|ents| - 1], levelWidth);
      CarHitsInPass(acc, init, levelWidth)
        + (if m.kind == Car && Overlaps(CollideAll(acc, init, levelWidth).body, m) then 1 else 0)
  }

  /** No once-only guard and no early exit: the pass calls onGameOver once for every car that
      overlaps the player when its turn comes, even after the goal has been reached or another
      car has already hit in the same pass. */
  lemma {:induction false} EveryOverlappingCarCallsGameOver(acc: Pass, ents: seq<Entity>, levelWidth: real)
    ensures GameOverCount(CollideAll(acc, ents, levelWidth).events)
         == GameOverCount(acc.events) + CarHitsInPass(acc, ents, levelWidth)
  {
    if ents != [] {
      var init := ents[..|ents| - 1];
      EveryOverlappingCarCallsGameOver(acc, init, levelWidth);
      var mid := CollideAll(acc, init, levelWidth);
      var e := ents[|ents| - 1];
      var m := MoveEntity(e, levelWidth);
      var r := Resolve(mid, e, levelWidth);
      if Overlaps(mid.body, m) && m.kind == Car {
        assert r.events == mid.events + [Play(HitSound), GameOverCalled];
        GameOverCountAppend(mid.events, [Play(HitSound), GameOverCalled]);
        assert [Play(HitSound), GameOverCalled][..1] == [Play(HitSound)];
        assert GameOverCount([Play(HitSound)]) == 0;
      } else if Overlaps(mid.body, m) && m.kind == Goal {
        assert r.events == mid.events + [Play(WinSound), SuccessScheduled];
        GameOverCountAppend(mid.events, [Play(WinSound), SuccessScheduled]);
        assert [Play(WinSound), SuccessScheduled][..1] == [Play(WinSound)];
        assert GameOverCount([Play(WinSound)]) == 0;
      } else {
        assert r.events == mid.events;
      }
    }
  }
}

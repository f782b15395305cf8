/** Level generation (components/Game.tsx, the effect that fills the entity list once per
    configuration): the goal first, then a car every `gap` units from x = 800 up to 400 before
    the goal, each followed by a platform when a random draw exceeds 0.4. */
module Level {
  import opened Constants
  import opened Types

  /** The four car looks; only the size reaches the entity. */
  datatype CarStyle = CarStyle(color: string, size: Vec2)

  const CAR_STYLES: seq<CarStyle> := [
    CarStyle("#ef4444", Vec2(75.0, 35.0)),
    CarStyle("#3b82f6", Vec2(75.0, 35.0)),
    CarStyle("#f59e0b", Vec2(85.0, 30.0)),
    CarStyle("#10b981", Vec2(105.0, 50.0))
  ]

  const FIRST_CAR_X: real := 800.0
  const GOAL_CLEARANCE: real := 400.0
  const GOAL_SIZE: real := 120.0
  const PLATFORM_AHEAD: real := 350.0
  const PLATFORM_HEIGHT_ABOVE_GROUND: real := 100.0
  const PLATFORM_SIZE: Vec2 := Vec2(140.0, 25.0)
  const PLATFORM_CHANCE_THRESHOLD: real := 0.4

  /** The three Math.random() results drawn for one car, in the order the source draws them:
      its style, its speed, and whether a platform follows it. */
  datatype CarDraw = CarDraw(style: real, speed: real, platform: real)

  predicate ValidDraw(d: CarDraw)
  {
    0.0 <= d.style < 1.0 && 0.0 <= d.speed < 1.0 && 0.0 <= d.platform < 1.0
  }

  predicate ValidDraws(draws: seq<CarDraw>)
  {
    forall k :: 0 <= k < |draws| ==> ValidDraw(draws[k])
  }

  /** Distance between consecutive cars; denser traffic packs them closer. */
  function TrafficGap(density: real): real
  {
    1500.0 - density * 110.0
  }

  /** Every density on the configuration's 1..10 scale gives a positive gap, and a higher
      density gives a strictly smaller one. */
  lemma TrafficGapPositiveAndDecreasing(d1: real, d2: real)
    requires 1.0 <= d1 < d2 <= 10.0
    ensures 0.0 < TrafficGap(d2) < TrafficGap(d1)
  {
  }

  /** Math.floor(r * 4) picks one of the four styles. */
  function StyleIndex(r: real): (k: nat)
    requires 0.0 <= r < 1.0
    ensures k < |CAR_STYLES|
  {
    (r * 4.0).Floor
  }

  function GoalEntity(goalX: real): Entity
  {
    Entity(GoalId, Vec2(goalX, GROUND_Y - GOAL_SIZE), Vec2(GOAL_SIZE, GOAL_SIZE), Vec2(0.0, 0.0), Goal)
  }

  function CarEntity(x: real, d: CarDraw): Entity
    requires ValidDraw(d)
  {
    var style := CAR_STYLES[StyleIndex(d.style)];
    Entity(CarId(x), Vec2(x, GROUND_Y - style.size.y), style.size, Vec2(-(2.5 + d.speed * 2.5), 0.0), Car)
  }

  function PlatformEntity(x: real): Entity
  {
    Entity(PlatformId(x), Vec2(x + PLATFORM_AHEAD, GROUND_Y - PLATFORM_HEIGHT_ABOVE_GROUND), PLATFORM_SIZE, Vec2(0.0, 0.0), Platform)
  }

  /** A bound on the iterations still to run from i; it falls by at least one per stride. */
  function Steps(i: real, gap: real, limit: real): nat
    requires gap > 0.0
  {
    if i >= limit then 0 else ((limit - i) / gap).Floor + 1
  }

  lemma StepsShrink(i: real, gap: real, limit: real)
    requires gap > 0.0 && i < limit
    ensures Steps(i + gap, gap, limit) < Steps(i, gap, limit)
  {
    var q := (limit - i) / gap;
    assert q > 0.0;
    if i + gap < limit {
      DivideOneStrideLess(limit - i, gap);
      assert limit - (i + gap) == (limit - i) - gap;
    }
  }

  lemma DivideOneStrideLess(a: real, g: real)
    requires g > 0.0
    ensures (a - g) / g == a / g - 1.0
  {
    var x, y := a / g, (a - g) / g;
    assert x * g == a;
    assert y * g == a - g;
    assert (x - 1.0) * g == x * g - g;
    MulCancel(y, x - 1.0, g);
  }

  lemma MulCancel(u: real, v: real, g: real)
    requires g > 0.0 && u * g == v * g
    ensures u == v
  {
  }

  /** The number of cars placed from x = i onward. */
  function CarCount(i: real, gap: real, limit: real): nat
    requires gap > 0.0
    decreases Steps(i, gap, limit)
  {
    if i >= limit then 0
    else
      StepsShrink(i, gap, limit);
      1 + CarCount(i + gap, gap, limit)
  }

  /** The k-th grid point of the traffic walk: k strides of `gap` after i. */
  function GridX(i: real, gap: real, k: nat): real
  {
    if k == 0 then i else GridX(i, gap, k - 1) + gap
  }

  /** The k-th grid point is i + k * gap. */
  lemma {:induction false} GridXClosedForm(i: real, gap: real, k: nat)
    ensures GridX(i, gap, k) == i + (k as real) * gap
  {
    if k > 0 {
      GridXClosedForm(i, gap, k - 1);
      assert (k as real) * gap == ((k - 1) as real) * gap + gap;
    }
  }

  /** With a positive stride no grid point lies before the start. */
  lemma {:induction false} GridXAtLeastStart(i: real, gap: real, k: nat)
    requires gap > 0.0
    ensures GridX(i, gap, k) >= i
  {
    if k > 0 {
      GridXAtLeastStart(i, gap, k - 1);
    }
  }

  /** The walk places a car at exactly those grid points i + k*gap that lie before the limit. */
  lemma {:induction false} CarCountIsGridPointsBeforeLimit(i: real, gap: real, limit: real)
    requires gap > 0.0
    ensures forall k: nat :: k < CarCount(i, gap, limit) <==> GridX(i, gap, k) < limit
    decreases Steps(i, gap, limit)
  {
    if i >= limit {
      forall k: nat ensures GridX(i, gap, k) >= limit {
        GridXAtLeastStart(i, gap, k);
      }
    } else {
      StepsShrink(i, gap, limit);
      CarCountIsGridPointsBeforeLimit(i + gap, gap, limit);
      forall k: nat | k > 0 ensures GridX(i, gap, k) == GridX(i + gap, gap, k - 1) {
        GridShift(i, gap, k);
      }
    }
  }

  /** The cars and platforms of the walk from x = i onward, one draw per car. */
  function CarsFrom(i: real, gap: real, limit: real, draws: seq<CarDraw>): seq<Entity>
    requires gap > 0.0 && ValidDraws(draws) && |draws| >= CarCount(i, gap, limit)
    decreases Steps(i, gap, limit)
  {
    if i >= limit then []
    else
      StepsShrink(i, gap, limit);
      Head(i, draws[0]) + CarsFrom(i + gap, gap, limit, draws[1..])
  }

  /** The entity list built for a level: goal first, then the traffic walk. */
  function Generate(goalX: real, density: real, draws: seq<CarDraw>): seq<Entity>
    requires TrafficGap(density) > 0.0 && ValidDraws(draws)
    requires |draws| >= CarCount(FIRST_CAR_X, TrafficGap(density), goalX - GOAL_CLEARANCE)
  {
    [GoalEntity(goalX)] + CarsFrom(FIRST_CAR_X, TrafficGap(density), goalX - GOAL_CLEARANCE, draws)
  }

  /** The x of every car in the list, in order. */
  function CarXs(es: seq<Entity>): seq<real>
  {
    if es == [] then []
    else (if es[0].kind == Car then [es[0].pos.x] else []) + CarXs(es[1..])
  }

  lemma {:induction false} CarXsAppend(a: seq<Entity>, b: seq<Entity>)
    ensures CarXs(a + b) == CarXs(a) + CarXs(b)
  {
    if a == [] {
      assert a + b == b;
    } else {
      var h := if a[0].kind == Car then [a[0].pos.x] else [];
      calc {
        CarXs(a + b);
        == { assert (a + b)[0] == a[0]; assert (a + b)[1..] == a[1..] + b; }
        h + CarXs(a[1..] + b);
        == { CarXsAppend(a[1..], b); }
        h + (CarXs(a[1..]) + CarXs(b));
        == // concatenation is associative
        (h + CarXs(a[1..])) + CarXs(b);
      }
    }
  }

  /** How a generated car looks: resting on the road with one of the styles' sizes, driving
      left at a speed in [2.5, 5), named after its x. */
  predicate IsGeneratedCar(e: Entity)
  {
    && e.kind == Car
    && e.id == CarId(e.pos.x)
    && e.pos.y + e.size.y == GROUND_Y
    && (exists s :: 0 <= s < |CAR_STYLES| && CAR_STYLES[s].size == e.size)
    && -5.0 < e.vel.x <= -2.5 && e.vel.y == 0.0
  }

  /** How a generated platform looks: 140 by 25, 100 above the road, 350 ahead of its car. */
  predicate IsGeneratedPlatform(e: Entity)
  {
    && e.kind == Platform
    && e.id == PlatformId(e.pos.x - PLATFORM_AHEAD)
    && e.pos.y == GROUND_Y - PLATFORM_HEIGHT_ABOVE_GROUND
    && e.size == PLATFORM_SIZE && e.vel == Vec2(0.0, 0.0)
  }

  function IdX(id: EntityId): real
  {
    match id
    case GoalId => 0.0
    case CarId(x) => x
    case PlatformId(x) => x
  }

  /** The first car and, when the draw allows, its platform, placed at x = i. */
  function Head(i: real, d: CarDraw): seq<Entity>
    requires ValidDraw(d)
  {
    [CarEntity(i, d)] + (if d.platform > PLATFORM_CHANCE_THRESHOLD then [PlatformEntity(i)] else [])
  }

  lemma HeadHasOneCar(i: real, d: CarDraw)
    requires ValidDraw(d)
    ensures CarXs(Head(i, d)) == [i]
  {
    var head := Head(i, d);
    if |head| == 2 {
      assert head[1..] == [PlatformEntity(i)];
      assert CarXs(head[1..][1..]) == [];
    } else {
      assert head[1..] == [];
    }
  }

  /** The k-th point from i is the (k-1)-th from the next point. */
  lemma {:induction false} GridShift(i: real, gap: real, k: nat)
    requires k > 0
    ensures GridX(i, gap, k) == GridX(i + gap, gap, k - 1)
  {
    if k > 1 {
      GridShift(i, gap, k - 1);
    }
  }

  lemma CarsFromUnfold(i: real, gap: real, limit: real, draws: seq<CarDraw>)
    requires gap > 0.0 && ValidDraws(draws) && |draws| >= CarCount(i, gap, limit) && i < limit
    ensures |draws| >= 1 && |draws[1..]| >= CarCount(i + gap, gap, limit) && ValidDraws(draws[1..])
    ensures Steps(i + gap, gap, limit) < Steps(i, gap, limit)
    ensures CarsFrom(i, gap, limit, draws) == Head(i, draws[0]) + CarsFrom(i + gap, gap, limit, draws[1..])
  {
    StepsShrink(i, gap, limit);
  }

  /** One step of the walk: if `before` followed by the walk from i with the draws from k is
      the target list, so is `before` with the car at i (and its platform) followed by the walk
      from the next grid point with the draws from k + 1. */
  lemma WalkAdvances(before: seq<Entity>, i: real, gap: real, limit: real, draws: seq<CarDraw>, k: int, target: seq<Entity>)
    requires gap > 0.0 && i < limit && 0 <= k <= |draws|
    requires ValidDraws(draws[k..]) && |draws[k..]| >= CarCount(i, gap, limit)
    requires before + CarsFrom(i, gap, limit, draws[k..]) == target
    ensures k < |draws| && ValidDraw(draws[k])
    ensures ValidDraws(draws[k + 1..]) && |draws[k + 1..]| >= CarCount(i + gap, gap, limit)
    ensures (before + Head(i, draws[k])) + CarsFrom(i + gap, gap, limit, draws[k + 1..]) == target
    ensures Steps(i + gap, gap, limit) < Steps(i, gap, limit)
  {
    CarsFromUnfold(i, gap, limit, draws[k..]);
    assert draws[k..][1..] == draws[k + 1..];
    assert draws[k..][0] == draws[k];
  }

  /** The cars of the walk from i sit at the grid points i, i + gap, ... in order. */
  lemma {:induction false} CarsFromOnGrid(i: real, gap: real, limit: real, draws: seq<CarDraw>)
    requires gap > 0.0 && ValidDraws(draws) && |draws| >= CarCount(i, gap, limit)
    ensures var xs := CarXs(CarsFrom(i, gap, limit, draws));
      && |xs| == CarCount(i, gap, limit)
      && (forall k :: 0 <= k < |xs| ==> xs[k] == GridX(i, gap, k))
    decreases Steps(i, gap, limit)
  {
    if i < limit {
      CarsFromUnfold(i, gap, limit, draws);
      var head, rest := Head(i, draws[0]), CarsFrom(i + gap, gap, limit, draws[1..]);
      CarsFromOnGrid(i + gap, gap, limit, draws[1..]);
      CarXsAppend(head, rest);
      HeadHasOneCar(i, draws[0]);
      var xs := CarXs(CarsFrom(i, gap, limit, draws));
      assert xs == [i] + CarXs(rest);
      forall k | 0 <= k < |xs| ensures xs[k] == GridX(i, gap, k) {
        if k > 0 {
          assert xs[k] == CarXs(rest)[k - 1];
          GridShift(i, gap, k);
        }
      }
    }
  }

  /** Every entity of the walk is a generated car or platform. */
  lemma {:induction false} CarsFromLooks(i: real, gap: real, limit: real, draws: seq<CarDraw>)
    requires gap > 0.0 && ValidDraws(draws) && |draws| >= CarCount(i, gap, limit)
    ensures var es := CarsFrom(i, gap, limit, draws);
      forall a :: 0 <= a < |es| ==> IsGeneratedCar(es[a]) || IsGeneratedPlatform(es[a])
    decreases Steps(i, gap, limit)
  {
    if i < limit {
      CarsFromUnfold(i, gap, limit, draws);
      var d := draws[0];
      var head, rest := Head(i, d), CarsFrom(i + gap, gap, limit, draws[1..]);
      CarsFromLooks(i + gap, gap, limit, draws[1..]);
      var style := StyleIndex(d.style);
      assert CAR_STYLES[style].size == CarEntity(i, d).size;
      assert IsGeneratedCar(CarEntity(i, d));
      var es := head + rest;
      forall a | 0 <= a < |es| ensures IsGeneratedCar(es[a]) || IsGeneratedPlatform(es[a]) {
        if a >= |head| {
          assert es[a] == rest[a - |head|];
        }
      }
    }
  }

  /** No entity of the walk from i has the goal's id, every id names an x at or after i, and
      no two entities share an id. */
  lemma {:induction false} CarsFromIds(i: real, gap: real, limit: real, draws: seq<CarDraw>)
    requires gap > 0.0 && ValidDraws(draws) && |draws| >= CarCount(i, gap, limit)
    ensures var es := CarsFrom(i, gap, limit, draws);
      && (forall a :: 0 <= a < |es| ==> es[a].id != GoalId && IdX(es[a].id) >= i)
      && (forall a, b :: 0 <= a < b < |es| ==> es[a].id != es[b].id)
    decreases Steps(i, gap, limit)
  {
    if i < limit {
      CarsFromUnfold(i, gap, limit, draws);
      var head, rest := Head(i, draws[0]), CarsFrom(i + gap, gap, limit, draws[1..]);
      CarsFromIds(i + gap, gap, limit, draws[1..]);
      var es := head + rest;
      forall a | 0 <= a < |es| ensures es[a].id != GoalId && IdX(es[a].id) >= i {
        if a >= |head| {
          assert es[a] == rest[a - |head|];
        }
      }
      forall a, b | 0 <= a < b < |es| ensures es[a].id != es[b].id {
        if b >= |head| {
          assert es[b] == rest[b - |head|];
          if a >= |head| {
            assert es[a] == rest[a - |head|];
          } else {
            assert IdX(es[a].id) == i && IdX(es[b].id) >= i + gap;
          }
        }
      }
    }
  }

  /** A non-empty walk starts with a car. */
  lemma CarsFromStartsWithCar(i: real, gap: real, limit: real, draws: seq<CarDraw>)
    requires gap > 0.0 && ValidDraws(draws) && |draws| >= CarCount(i, gap, limit)
    requires CarsFrom(i, gap, limit, draws) != []
    ensures CarsFrom(i, gap, limit, draws)[0].kind == Car
  {
    if i < limit {
      CarsFromUnfold(i, gap, limit, draws);
    }
  }

  /** Every platform of the walk comes right after the car it belongs to, 350 ahead of it. */
  lemma {:induction false} CarsFromPlatformsFollowCars(i: real, gap: real, limit: real, draws: seq<CarDraw>, a: int)
    requires gap > 0.0 && ValidDraws(draws) && |draws| >= CarCount(i, gap, limit)
    requires 0 <= a < |CarsFrom(i, gap, limit, draws)| && CarsFrom(i, gap, limit, draws)[a].kind == Platform
    ensures var es := CarsFrom(i, gap, limit, draws);
      a >= 1 && es[a - 1].kind == Car && es[a] == PlatformEntity(es[a - 1].pos.x)
    decreases Steps(i, gap, limit)
  {
    CarsFromUnfold(i, gap, limit, draws);
    var head, rest := Head(i, draws[0]), CarsFrom(i + gap, gap, limit, draws[1..]);
    var es := head + rest;
    if a >= |head| {
      var b := a - |head|;
      assert es[a] == rest[b];
      CarsFromPlatformsFollowCars(i + gap, gap, limit, draws[1..], b);
      assert es[a - 1] == rest[b - 1];
    }
  }

  /** Entity a of es is the car built from the k-th draw at the k-th grid point from i, and a
      platform follows it exactly when that draw's third number exceeds 0.4. */
  predicate CarMatchesDraw(es: seq<Entity>, a: int, k: nat, i: real, gap: real, draws: seq<CarDraw>)
  {
    && 0 <= a < |es| && k < |draws| && ValidDraw(draws[k])
    && es[a] == CarEntity(GridX(i, gap, k), draws[k])
    && (a + 1 < |es| && es[a + 1].kind == Platform <==> draws[k].platform > PLATFORM_CHANCE_THRESHOLD)
  }

  /** The number of cars before entity a. */
  function CarsBefore(es: seq<Entity>, a: int): nat
    requires 0 <= a <= |es|
  {
    |CarXs(es[..a])|
  }

  /** Putting entities in front adds their cars to the count before every later entity. */
  lemma CarsBeforeShift(head: seq<Entity>, rest: seq<Entity>, b: int)
    requires 0 <= b <= |rest|
    ensures CarsBefore(head + rest, |head| + b) == |CarXs(head)| + CarsBefore(rest, b)
  {
    assert (head + rest)[..|head| + b] == head + rest[..b];
    CarXsAppend(head, rest[..b]);
  }

  /** Putting entities in front of a car keeps it matched to the same draw. */
  lemma PrefixCarMatch(head: seq<Entity>, rest: seq<Entity>, b: int, k: nat, i: real, gap: real, draws: seq<CarDraw>)
    requires CarMatchesDraw(rest, b, k, i, gap, draws)
    ensures CarMatchesDraw(head + rest, |head| + b, k, i, gap, draws)
  {
    var es, a := head + rest, |head| + b;
    assert es[a] == rest[b];
    if a + 1 < |es| {
      assert es[a + 1] == rest[b + 1];
    }
  }

  /** A car matching the k-th draw in the rest of the walk matches the (k+1)-th once the
      first car and its platform are put in front. */
  lemma ShiftCarMatch(head: seq<Entity>, rest: seq<Entity>, b: int, k: nat, i: real, gap: real, draws: seq<CarDraw>)
    requires |draws| >= 1
    requires CarMatchesDraw(rest, b, k, i + gap, gap, draws[1..])
    ensures CarMatchesDraw(head + rest, |head| + b, k + 1, i, gap, draws)
  {
    var es, a := head + rest, |head| + b;
    assert draws[k + 1] == draws[1..][k];
    GridShift(i, gap, k + 1);
    assert es[a] == rest[b];
    if a + 1 < |es| {
      assert es[a + 1] == rest[b + 1];
    }
  }

  /** Every car of the walk matches its draw. */
  lemma {:induction false} CarsFromFollowDraws(i: real, gap: real, limit: real, draws: seq<CarDraw>, a: int)
    requires gap > 0.0 && ValidDraws(draws) && |draws| >= CarCount(i, gap, limit)
    requires 0 <= a < |CarsFrom(i, gap, limit, draws)| && CarsFrom(i, gap, limit, draws)[a].kind == Car
    ensures var es := CarsFrom(i, gap, limit, draws); CarMatchesDraw(es, a, CarsBefore(es, a), i, gap, draws)
    decreases Steps(i, gap, limit)
  {
    CarsFromUnfold(i, gap, limit, draws);
    var d := draws[0];
    var head, rest := Head(i, d), CarsFrom(i + gap, gap, limit, draws[1..]);
    var es := head + rest;
    if a == 0 {
      assert es[..a] == [];
      assert es[0] == CarEntity(GridX(i, gap, 0), d);
      if d.platform <= PLATFORM_CHANCE_THRESHOLD && 1 < |es| {
        CarsFromStartsWithCar(i + gap, gap, limit, draws[1..]);
        assert es[1] == rest[0];
      }
    } else {
      HeadHasOneCar(i, d);
      var b := a - |head|;
      assert es[a] == rest[b];
      CarsFromFollowDraws(i + gap, gap, limit, draws[1..], b);
      CarsBeforeShift(head, rest, b);
      ShiftCarMatch(head, rest, b, CarsBefore(rest, b), i, gap, draws);
    }
  }

  /** In a generated level the k-th car is built from the k-th draw and is followed by its
      platform exactly when that draw allows one; every platform comes right after its car,
      so never before entity 2. */
  lemma GeneratedTrafficFollowsDraws(goalX: real, density: real, draws: seq<CarDraw>)
    requires TrafficGap(density) > 0.0 && ValidDraws(draws)
    requires |draws| >= CarCount(FIRST_CAR_X, TrafficGap(density), goalX - GOAL_CLEARANCE)
    ensures var es := Generate(goalX, density, draws);
      && (forall a :: 0 <= a < |es| && es[a].kind == Car ==>
            CarMatchesDraw(es, a, CarsBefore(es, a), FIRST_CAR_X, TrafficGap(density), draws))
      && (forall a :: 0 <= a < |es| && es[a].kind == Platform ==>
            a >= 2 && es[a - 1].kind == Car && es[a] == PlatformEntity(es[a - 1].pos.x))
  {
    var gap, limit := TrafficGap(density), goalX - GOAL_CLEARANCE;
    var rest := CarsFrom(FIRST_CAR_X, gap, limit, draws);
    var goal := GoalEntity(goalX);
    var es := Generate(goalX, density, draws);
    assert es == [goal] + rest;
    assert CarXs([goal]) == [];
    forall a | 0 <= a < |es| && es[a].kind == Car
      ensures CarMatchesDraw(es, a, CarsBefore(es, a), FIRST_CAR_X, gap, draws)
    {
      var b := a - 1;
      assert es[a] == rest[b];
      CarsFromFollowDraws(FIRST_CAR_X, gap, limit, draws, b);
      CarsBeforeShift([goal], rest, b);
      PrefixCarMatch([goal], rest, b, CarsBefore(rest, b), FIRST_CAR_X, gap, draws);
    }
    forall a | 0 <= a < |es| && es[a].kind == Platform
      ensures a >= 2 && es[a - 1].kind == Car && es[a] == PlatformEntity(es[a - 1].pos.x)
    {
      var b := a - 1;
      assert es[a] == rest[b];
      CarsFromPlatformsFollowCars(FIRST_CAR_X, gap, limit, draws, b);
      assert es[a - 1] == rest[b - 1];
    }
  }

  /** Generated levels: the goal is entity 0, at (goalX, GROUND_Y - 120) and 120 by 120; the
      cars sit at exactly the points 800 + k*gap before goalX - 400, in order; every other
      entity is a generated car or platform; the k-th car is built from the k-th draw and is
      followed by its platform exactly when that draw's third number exceeds 0.4; every
      platform comes right after its car (so never before entity 2), 350 ahead of it; ids are
      unique. */
  lemma GeneratedLevelLayout(goalX: real, density: real, draws: seq<CarDraw>)
    requires TrafficGap(density) > 0.0 && ValidDraws(draws)
    requires |draws| >= CarCount(FIRST_CAR_X, TrafficGap(density), goalX - GOAL_CLEARANCE)
    ensures var es, gap, limit := Generate(goalX, density, draws), TrafficGap(density), goalX - GOAL_CLEARANCE;
      && es[0] == Entity(GoalId, Vec2(goalX, GROUND_Y - 120.0), Vec2(120.0, 120.0), Vec2(0.0, 0.0), Goal)
      && (forall k :: 0 <= k < |CarXs(es)| ==> CarXs(es)[k] == GridX(FIRST_CAR_X, gap, k))
      && (forall k: nat :: k < |CarXs(es)| <==> GridX(FIRST_CAR_X, gap, k) < limit)
      && (forall a :: 1 <= a < |es| ==> IsGeneratedCar(es[a]) || IsGeneratedPlatform(es[a]))
      && (forall a :: 0 <= a < |es| && es[a].kind == Car ==> CarMatchesDraw(es, a, CarsBefore(es, a), FIRST_CAR_X, gap, draws))
      && (forall a :: 0 <= a < |es| && es[a].kind == Platform ==>
            a >= 2 && es[a - 1].kind == Car && es[a] == PlatformEntity(es[a - 1].pos.x))
      && (forall a, b :: 0 <= a < b < |es| ==> es[a].id != es[b].id)
  {
    var gap, limit := TrafficGap(density), goalX - GOAL_CLEARANCE;
    var rest := CarsFrom(FIRST_CAR_X, gap, limit, draws);
    var es := Generate(goalX, density, draws);
    CarsFromOnGrid(FIRST_CAR_X, gap, limit, draws);
    CarsFromLooks(FIRST_CAR_X, gap, limit, draws);
    CarsFromIds(FIRST_CAR_X, gap, limit, draws);
    GeneratedTrafficFollowsDraws(goalX, density, draws);
    CarCountIsGridPointsBeforeLimit(FIRST_CAR_X, gap, limit);
    CarXsAppend([GoalEntity(goalX)], rest);
    assert CarXs([GoalEntity(goalX)]) == [];
    assert CarXs(es) == CarXs(rest);
    forall a | 1 <= a < |es| ensures IsGeneratedCar(es[a]) || IsGeneratedPlatform(es[a]) {
      assert es[a] == rest[a - 1];
    }
    forall a, b | 0 <= a < b < |es| ensures es[a].id != es[b].id {
      assert es[b] == rest[b - 1];
      if a > 0 {
        assert es[a] == rest[a - 1];
      }
    }
  }

  /** A walk that starts no earlier and strides no shorter places no more cars. */
  lemma {:induction false} CarCountMonotone(i1: real, gap1: real, i2: real, gap2: real, limit: real)
    requires 0.0 < gap2 <= gap1 && i2 <= i1
    ensures CarCount(i1, gap1, limit) <= CarCount(i2, gap2, limit)
    decreases Steps(i1, gap1, limit)
  {
    if i1 < limit {
      StepsShrink(i1, gap1, limit);
      CarCountMonotone(i1 + gap1, gap1, i2 + gap2, gap2, limit);
    }
  }

  /** Denser traffic never places fewer cars on the same course. */
  lemma DenserTrafficMoreCars(goalX: real, d1: real, d2: real)
    requires d1 <= d2 && TrafficGap(d2) > 0.0
    ensures CarCount(FIRST_CAR_X, TrafficGap(d1), goalX - GOAL_CLEARANCE)
         <= CarCount(FIRST_CAR_X, TrafficGap(d2), goalX - GOAL_CLEARANCE)
  {
    assert d1 * 110.0 <= d2 * 110.0;
    CarCountMonotone(FIRST_CAR_X, TrafficGap(d1), FIRST_CAR_X, TrafficGap(d2), goalX - GOAL_CLEARANCE);
  }
}

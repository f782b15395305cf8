/** The end of each running tick (components/Game.tsx): distance score against a high-water
    mark, and the eased camera. */
module Progress {
  import opened Constants
  import opened Types
  import opened Numeric

  datatype Score = Score(mark: real, events: seq<Event>)

  /** Ten points whenever the player is more than 100 past the last scoring x, which then
      moves up to the player. */
  function ScoreStep(x: real, lastScoreX: real): (s: Score)
    ensures s.mark >= lastScoreX
    ensures |s.events| <= 1
    ensures s.events != [] <==> x > lastScoreX + SCORE_STRIDE
    ensures s.events != [] ==> s.events == [ScoreUpdate(SCORE_POINTS)] && s.mark == x
    ensures s.events == [] ==> s.mark == lastScoreX
  {
    if x > lastScoreX + SCORE_STRIDE then Score(x, [ScoreUpdate(SCORE_POINTS)]) else Score(lastScoreX, [])
  }

  /** Positions visited on successive ticks, scored in order from a starting mark. */
  function ScoreRun(xs: seq<real>, mark: real): Score
  {
    if xs == [] then Score(mark, [])
    else
      var first := ScoreStep(xs[0], mark);
      var rest := ScoreRun(xs[1..], first.mark);
      Score(rest.mark, first.events + rest.events)
  }

  /** Progress only: along any walk the mark never goes down, each award is ten points, and no
      award happens while the player stays at or behind the starting mark + 100. */
  lemma {:induction false} ScoreRunIsProgressOnly(xs: seq<real>, mark: real)
    ensures var s := ScoreRun(xs, mark);
      && s.mark >= mark
      && |s.events| <= |xs|
      && (forall j :: 0 <= j < |s.events| ==> s.events[j] == ScoreUpdate(SCORE_POINTS))
      && ((forall i :: 0 <= i < |xs| ==> xs[i] <= mark + SCORE_STRIDE) ==> s.events == [] && s.mark == mark)
  {
    if xs != [] {
      var first := ScoreStep(xs[0], mark);
      ScoreRunIsProgressOnly(xs[1..], first.mark);
      if forall i :: 0 <= i < |xs| ==> xs[i] <= mark + SCORE_STRIDE {
        assert first.mark == mark;
        forall i | 0 <= i < |xs[1..]| ensures xs[1..][i] <= mark + SCORE_STRIDE {
          assert xs[1..][i] == xs[i + 1];
        }
      }
    }
  }

  /** Walking forward from x = 100 to 350 in steps of 125 scores exactly twice; stepping back
      and forward again inside the same band adds nothing. */
  lemma ScoreExample()
    ensures ScoreRun([225.0, 350.0], 100.0) == Score(350.0, [ScoreUpdate(10), ScoreUpdate(10)])
    ensures ScoreRun([225.0, 300.0, 240.0, 320.0], 100.0) == Score(225.0, [ScoreUpdate(10)])
  {
  }

  /** The camera aims to centre the player, kept within the level's scrollable range. */
  function CameraTarget(x: real, levelWidth: real): (t: real)
    ensures levelWidth >= CANVAS_WIDTH ==> 0.0 <= t <= levelWidth - CANVAS_WIDTH
    ensures 0.0 <= x - CANVAS_WIDTH / 2.0 <= levelWidth - CANVAS_WIDTH ==> t == x - CANVAS_WIDTH / 2.0
    ensures x - CANVAS_WIDTH / 2.0 < 0.0 || levelWidth < CANVAS_WIDTH ==> t == 0.0
    ensures levelWidth >= CANVAS_WIDTH && x - CANVAS_WIDTH / 2.0 > levelWidth - CANVAS_WIDTH ==> t == levelWidth - CANVAS_WIDTH
  {
    Clamp(x - CANVAS_WIDTH / 2.0, 0.0, levelWidth - CANVAS_WIDTH)
  }

  /** The camera covers a tenth of the remaining distance to its target each tick. */
  function EaseCamera(cameraX: real, x: real, levelWidth: real): (c: real)
    ensures c - CameraTarget(x, levelWidth) == (1.0 - CAMERA_EASING) * (cameraX - CameraTarget(x, levelWidth))
  {
    cameraX + (CameraTarget(x, levelWidth) - cameraX) * CAMERA_EASING
  }

  /** A camera inside the scrollable range stays inside it. */
  lemma CameraStaysInRange(cameraX: real, x: real, levelWidth: real)
    requires levelWidth >= CANVAS_WIDTH
    requires 0.0 <= cameraX <= levelWidth - CANVAS_WIDTH
    ensures 0.0 <= EaseCamera(cameraX, x, levelWidth) <= levelWidth - CANVAS_WIDTH
  {
  }
}

/**
 * js/GameLoop.js: the frame callback that clamps the elapsed time, drains
 * it in fixed-size ticks, and keeps the FPS counter and the timing
 * history.
 *
 * The clock (`performance.now`, the `requestAnimationFrame` timestamp) is
 * a parameter; so are the measured durations of an update and a render,
 * which every tick of a frame records with the same value. The game the
 * loop drives is not called here: a frame reports how many ticks of
 * `timeStep` it owes the game (see the Game module).
 */
module GameLoop {
  import Helpers
  const DefaultStep: real := 1000.0 / 60.0
  /** The longest elapsed time one frame may account for. */
  const MaxDelta: real := 100.0
  /** How many entries each timing history keeps before it starts shifting. */
  const MaxHistory: int := 100
  const FpsWindow: real := 1000.0

  /** A number that may be `Infinity`, as `1000 / 0` and the initial minimum are. */
  datatype Extended = Finite(value: real) | Infinity

  datatype Stats = Stats(
    frameTimes: seq<real>,
    updateTimes: seq<real>,
    drawTimes: seq<real>,
    maxFrameTime: real,
    minFrameTime: Extended,
    averageFrameTime: real)

  datatype Loop = Loop(
    lastTime: real,
    accumulatedTime: real,
    timeStep: Extended,
    frameCount: int,
    fps: int,
    fpsTimer: real,
    stats: Stats,
    isRunning: bool,
    isPaused: bool,
    targetFps: real)

  /** The constructor: stopped, nothing accumulated, at 60 ticks per second. */
  function Create(): (l: Loop)
    ensures !l.isRunning && !l.isPaused && l.accumulatedTime == 0.0
    ensures l.timeStep == Finite(DefaultStep) && l.stats.minFrameTime == Infinity
    ensures l.stats.frameTimes == [] && l.stats.updateTimes == [] && l.stats.drawTimes == []
  {
    Loop(0.0, 0.0, Finite(DefaultStep), 0, 60, 0.0, Stats([], [], [], 0.0, Infinity, 0.0), false, false, 60.0)
  }

  // ---------------------------------------------------------------------
  // Lifecycle.
  // ---------------------------------------------------------------------

  /** `start`: a running loop is left alone; otherwise it runs, unpaused, from `now`. */
  function Start(l: Loop, now: real): (r: Loop)
    ensures l.isRunning ==> r == l
    ensures !l.isRunning ==> r == l.(isRunning := true, isPaused := false, lastTime := now)
    ensures r.isRunning && r.accumulatedTime == l.accumulatedTime
  {
    if l.isRunning then l else l.(isRunning := true, isPaused := false, lastTime := now)
  }

  /** `stop`: neither running nor paused. */
  function Stop(l: Loop): (r: Loop)
    ensures !r.isRunning && !r.isPaused
    ensures r.(isRunning := l.isRunning, isPaused := l.isPaused) == l
  {
    l.(isRunning := false, isPaused := false)
  }

  /** `pause`: only the paused flag changes. */
  function Pause(l: Loop): (r: Loop)
    ensures r.isPaused && r.(isPaused := l.isPaused) == l
  {
    l.(isPaused := true)
  }

  /** `resume`: unpaused and restamped, but the accumulated time is kept. */
  function Resume(l: Loop, now: real): (r: Loop)
    ensures !r.isPaused && r.lastTime == now
    ensures r.accumulatedTime == l.accumulatedTime
    ensures r.(isPaused := l.isPaused, lastTime := l.lastTime) == l
  {
    l.(isPaused := false, lastTime := now)
  }

  /** `handleResize`: restamped and the accumulated time dropped. */
  function HandleResize(l: Loop, now: real): (r: Loop)
    ensures r.lastTime == now && r.accumulatedTime == 0.0
    ensures r.(lastTime := l.lastTime, accumulatedTime := l.accumulatedTime) == l
  {
    l.(lastTime := now, accumulatedTime := 0.0)
  }

  /** Pausing then resuming restores the loop except for the new time stamp. */
  lemma PauseResume(l: Loop, now: real)
    requires !l.isPaused
    ensures Resume(Pause(l), now) == l.(lastTime := now)
  {
  }

  // ---------------------------------------------------------------------
  // The fixed-step drain.
  // ---------------------------------------------------------------------

  lemma FloorStep(acc: real, step: real)
    requires step > 0.0 && acc >= step
    ensures ((acc - step) / step).Floor == (acc / step).Floor - 1
    ensures (acc / step).Floor >= 1
  {
    Helpers.DivShift(acc, step);
    assert (acc / step) * step == acc;
  }

  /**
   * The `while` loop of `loop` for a positive step: it runs `ticks` times
   * and leaves less than one step behind. From a non-negative start the
   * remainder is non-negative, so `ticks` is the floor of `acc / step`; a
   * start below one step runs nothing.
   */
  function Drain(acc: real, step: real): (r: (nat, real))
    requires step > 0.0
    ensures acc == (r.0 as real) * step + r.1
    ensures r.1 < step
    ensures acc >= 0.0 ==> 0.0 <= r.1
    ensures acc < step ==> r == (0, acc)
    decreases if acc < step then 0 else (acc / step).Floor
  {
    if acc >= step then
      FloorStep(acc, step);
      var rest := Drain(acc - step, step);
      (rest.0 + 1, rest.1)
    else (0, acc)
  }

  /** The drain of a non-negative amount is the floor of the amount over the step. */
  lemma DrainIsFloor(acc: real, step: real)
    requires step > 0.0 && acc >= 0.0
    ensures Drain(acc, step).0 == (acc / step).Floor
  {
    var r := Drain(acc, step);
    Helpers.DivSplit(acc, r.0 as real, r.1, step);
    Helpers.DivBelowOne(r.1, step);
  }

  /** The outcome of the drain: a number of ticks and what is left, or a loop that never ends. */
  datatype Drained = Drained(ticks: nat, rest: real) | Hangs

  /**
   * The drain for any step `setTargetFPS` can produce. An infinite step
   * (from a target of 0) never runs a tick. A step that is zero or
   * negative (from a negative target) hangs the page as soon as the
   * accumulated time reaches it, because each iteration then adds to the
   * accumulated time instead of taking away.
   */
  function DrainAny(acc: real, step: Extended): (r: Drained)
    ensures step == Infinity ==> r == Drained(0, acc)
    ensures step.Finite? && step.value > 0.0 ==> r.Drained? && r.rest < step.value
    ensures step.Finite? && step.value <= 0.0 ==> (r.Hangs? <==> acc >= step.value)
  {
    match step
    case Infinity => Drained(0, acc)
    case Finite(s) =>
      if s > 0.0 then (var d := Drain(acc, s); Drained(d.0, d.1))
      else if acc >= s then Hangs
      else Drained(0, acc)
  }

  /** With a step that is not positive, no number of iterations makes the loop guard fail. */
  lemma NonPositiveStepNeverDrains(acc: real, step: real, n: nat)
    requires step <= 0.0 && acc >= step
    ensures acc - (n as real) * step >= step
  {
    Helpers.ProductNonNegative(n as real, -step);
  }

  // ---------------------------------------------------------------------
  // FPS counter and timing history.
  // ---------------------------------------------------------------------

  /** `updateFPS`: once a second's worth of time has passed, the frame count becomes the FPS. */
  function UpdateFps(l: Loop, deltaTime: real): (r: Loop)
    ensures r.fpsTimer < FpsWindow
    ensures l.fpsTimer + deltaTime >= FpsWindow ==> r.fps == l.frameCount && r.frameCount == 0 && r.fpsTimer == 0.0
    ensures l.fpsTimer + deltaTime < FpsWindow ==> r == l.(fpsTimer := l.fpsTimer + deltaTime)
  {
    var timer := l.fpsTimer + deltaTime;
    if timer >= FpsWindow then l.(fps := l.frameCount, frameCount := 0, fpsTimer := 0.0)
    else l.(fpsTimer := timer)
  }

  function Sum(s: seq<real>): real
    decreases |s|
  {
    if |s| == 0 then 0.0 else s[0] + Sum(s[1..])
  }

  /** Every entry of a history lies in [lo, hi]. */
  predicate Within(s: seq<real>, lo: real, hi: real) {
    forall i :: 0 <= i < |s| ==> lo <= s[i] <= hi
  }

  lemma {:induction false} SumWithin(s: seq<real>, lo: real, hi: real)
    requires Within(s, lo, hi)
    ensures (|s| as real) * lo <= Sum(s) <= (|s| as real) * hi
    decreases |s|
  {
    if |s| > 0 {
      assert Within(s[1..], lo, hi);
      SumWithin(s[1..], lo, hi);
    }
  }

  /** The mean of a non-empty history lies between its bounds. */
  function Mean(s: seq<real>): (m: real)
    requires |s| > 0
    ensures forall lo: real, hi: real {:trigger Within(s, lo, hi)} :: Within(s, lo, hi) ==> lo <= m <= hi
  {
    var n := |s| as real;
    forall lo: real, hi: real | Within(s, lo, hi)
      ensures lo <= Sum(s) / n <= hi
    {
      SumWithin(s, lo, hi);
      assert Sum(s) / n * n == Sum(s);
    }
    Sum(s) / n
  }

  /** Drops the oldest entry once a history has grown past its cap. */
  function Cap(s: seq<real>): (r: seq<real>)
    ensures |s| > MaxHistory ==> r == s[1..]
    ensures |s| <= MaxHistory ==> r == s
  {
    if |s| > MaxHistory then s[1..] else s
  }

  function MinExtended(a: Extended, b: real): (r: real)
    ensures r <= b && (a.Finite? ==> r <= a.value)
    ensures r == b || (a.Finite? && r == a.value)
  {
    match a
    case Infinity => b
    case Finite(v) => if v < b then v else b
  }

  /**
   * `updateStats`: records the frame time, shifts each history once if it
   * is over the cap, and refreshes the extremes and the running mean.
   */
  function UpdateStats(st: Stats, frameTime: real): (r: Stats)
    ensures |st.frameTimes| <= MaxHistory ==> |r.frameTimes| <= MaxHistory
    ensures |r.frameTimes| > 0 && r.frameTimes[|r.frameTimes| - 1] == frameTime
    ensures |r.updateTimes| >= |st.updateTimes| - 1 && |r.drawTimes| >= |st.drawTimes| - 1
    ensures r.maxFrameTime >= frameTime && r.maxFrameTime >= st.maxFrameTime
    ensures r.maxFrameTime == frameTime || r.maxFrameTime == st.maxFrameTime
    ensures r.minFrameTime.Finite? && r.minFrameTime.value <= frameTime
    ensures forall lo: real, hi: real :: Within(r.frameTimes, lo, hi) ==> lo <= r.averageFrameTime <= hi
  {
    var frames := Cap(st.frameTimes + [frameTime]);
    Stats(frames, Cap(st.updateTimes), Cap(st.drawTimes),
          if st.maxFrameTime > frameTime then st.maxFrameTime else frameTime,
          Finite(MinExtended(st.minFrameTime, frameTime)),
          Mean(frames))
  }

  /** What `getStats` reports. */
  datatype Report = Report(fps: int, frameCount: int, updateTime: real, drawTime: real,
                           avgFrameTime: real, maxFrameTime: real, minFrameTime: Extended,
                           isRunning: bool, isPaused: bool)

  /** A mean that is 0 for an empty history instead of dividing by zero. */
  function MeanOrZero(s: seq<real>): (m: real)
    ensures |s| == 0 ==> m == 0.0
    ensures forall lo: real, hi: real :: |s| > 0 && Within(s, lo, hi) ==> lo <= m <= hi
  {
    if |s| > 0 then Mean(s) else 0.0
  }

  /** `getStats`. */
  function GetStats(l: Loop): (r: Report)
    ensures |l.stats.updateTimes| == 0 ==> r.updateTime == 0.0
    ensures |l.stats.drawTimes| == 0 ==> r.drawTime == 0.0
    ensures forall lo: real, hi: real :: |l.stats.updateTimes| > 0 && Within(l.stats.updateTimes, lo, hi) ==> lo <= r.updateTime <= hi
    ensures forall lo: real, hi: real :: |l.stats.drawTimes| > 0 && Within(l.stats.drawTimes, lo, hi) ==> lo <= r.drawTime <= hi
    ensures r.isRunning == l.isRunning && r.isPaused == l.isPaused && r.fps == l.fps
  {
    Report(l.fps, l.frameCount, MeanOrZero(l.stats.updateTimes), MeanOrZero(l.stats.drawTimes),
           l.stats.averageFrameTime, l.stats.maxFrameTime, l.stats.minFrameTime, l.isRunning, l.isPaused)
  }

  // ---------------------------------------------------------------------
  // setTargetFPS.
  // ---------------------------------------------------------------------

  /** A step the drain can finish with: positive, or infinite (no ticks at all). */
  predicate ValidStep(s: Extended) {
    s == Infinity || s.value > 0.0
  }

  /** `setTargetFPS` as written: `1000 / fps` with no guard, so 0 gives `Infinity` and a negative target a negative step. */
  function SetTargetFpsAsWritten(l: Loop, fps: real): (r: Loop)
    ensures fps > 0.0 ==> r.timeStep == Finite(1000.0 / fps) && ValidStep(r.timeStep)
    ensures fps == 0.0 ==> r.timeStep == Infinity
    ensures fps < 0.0 ==> r.timeStep.Finite? && r.timeStep.value < 0.0
    ensures r.targetFps == fps
  {
    l.(targetFps := fps, timeStep := if fps == 0.0 then Infinity else Finite(1000.0 / fps))
  }

  /**
   * `setTargetFPS` with the guard it lacks: a target that is not positive
   * is ignored, so the step stays one the drain can finish with.
   */
  function SetTargetFps(l: Loop, fps: real): (r: Loop)
    ensures ValidStep(l.timeStep) ==> ValidStep(r.timeStep)
    ensures fps > 0.0 ==> r == SetTargetFpsAsWritten(l, fps)
    ensures fps <= 0.0 ==> r == l
  {
    if fps > 0.0 then l.(targetFps := fps, timeStep := Finite(1000.0 / fps)) else l
  }

  // ---------------------------------------------------------------------
  // One frame.
  // ---------------------------------------------------------------------

  /** What a frame callback does: skipped, ran a number of ticks, or never returned. */
  datatype Frame = Skipped | Ran(loop: Loop, ticks: nat) | Hung

  /** `Math.min(deltaTime, 100)`: an upper bound only. */
  function ClampDelta(deltaTime: real): (d: real)
    ensures d <= MaxDelta && d <= deltaTime
    ensures d == deltaTime || d == MaxDelta
  {
    if deltaTime < MaxDelta then deltaTime else MaxDelta
  }

  /**
   * `loop(currentTime)`: nothing happens when the loop is stopped or
   * paused. Otherwise the elapsed time is clamped, counted and recorded,
   * added to the accumulated time and drained; each tick records an update
   * duration, the render records a draw duration and the frame is counted.
   */
  function RunFrame(l: Loop, currentTime: real, updateTime: real, drawTime: real): (r: Frame)
    ensures !l.isRunning || l.isPaused ==> r == Skipped
    ensures l.isRunning && !l.isPaused ==> r != Skipped
    ensures r.Ran? ==> r.loop.lastTime == currentTime && r.loop.isRunning && !r.loop.isPaused
    ensures r.Ran? ==> r.loop.timeStep == l.timeStep
    ensures r.Ran? && l.timeStep.Finite? ==>
              l.accumulatedTime + ClampDelta(currentTime - l.lastTime)
                == (r.ticks as real) * l.timeStep.value + r.loop.accumulatedTime
    ensures r.Ran? && l.timeStep.Finite? && l.timeStep.value > 0.0 ==> r.loop.accumulatedTime < l.timeStep.value
    ensures r.Ran? ==> |r.loop.stats.updateTimes| == |Cap(l.stats.updateTimes)| + r.ticks
    ensures ValidStep(l.timeStep) ==> !r.Hung?
  {
    if !l.isRunning || l.isPaused then Skipped
    else
      var clamped := ClampDelta(currentTime - l.lastTime);
      var counted := UpdateFps(l.(lastTime := currentTime), clamped);
      var stats := UpdateStats(counted.stats, clamped);
      match DrainAny(counted.accumulatedTime + clamped, l.timeStep)
      case Hangs => Hung
      case Drained(ticks, rest) =>
        var recorded := stats.(updateTimes := stats.updateTimes + seq(ticks, _ => updateTime),
                               drawTimes := stats.drawTimes + [drawTime]);
        Ran(counted.(accumulatedTime := rest, stats := recorded, frameCount := counted.frameCount + 1), ticks)
  }

  /**
   * At the default step, a frame that starts with less than one step
   * accumulated owes the game at most six ticks, however long it was.
   */
  lemma AtMostSixTicks(acc: real, deltaTime: real)
    requires 0.0 <= acc < DefaultStep
    ensures Drain(acc + ClampDelta(deltaTime), DefaultStep).0 <= 6
  {
  }

  /** Six ticks do happen: 16 ms left over plus a clamped 100 ms. */
  lemma SixTicksReachable()
    ensures Drain(16.0 + ClampDelta(250.0), DefaultStep).0 == 6
  {
    DrainIsFloor(116.0, DefaultStep);
  }

  /**
   * `resume` stamps the wall clock, but the next frame's timestamp can be
   * earlier: the negative elapsed time passes the clamp and drives the
   * accumulated time below zero.
   */
  lemma NegativeDeltaAfterResume()
    ensures var l := Resume(Pause(Start(Create(), 0.0)), 1000.0);
            var f := RunFrame(l, 990.0, 1.0, 1.0);
            f.Ran? && f.ticks == 0 && f.loop.accumulatedTime == -10.0
  {
  }

  /**
   * The update history is shifted at most once per frame but grows by one
   * entry per tick: past the cap, a frame of two or more ticks lengthens
   * it, so it has no bound.
   */
  lemma UpdateHistoryGrows(l: Loop, currentTime: real, updateTime: real, drawTime: real)
    requires |l.stats.updateTimes| > MaxHistory
    ensures var f := RunFrame(l, currentTime, updateTime, drawTime);
            f.Ran? && f.ticks >= 2 ==> |f.loop.stats.updateTimes| > |l.stats.updateTimes|
  {
  }

  /** A target of zero freezes the game: the loop keeps running but no tick ever happens. */
  lemma ZeroTargetFreezes(l: Loop, currentTime: real, updateTime: real, drawTime: real)
    requires l.isRunning && !l.isPaused
    ensures var f := RunFrame(SetTargetFpsAsWritten(l, 0.0), currentTime, updateTime, drawTime);
            f.Ran? && f.ticks == 0
  {
  }

  /** A negative target hangs the first frame that runs from a non-negative accumulated time. */
  lemma NegativeTargetHangs(l: Loop, fps: real, currentTime: real, updateTime: real, drawTime: real)
    requires l.isRunning && !l.isPaused && fps < 0.0
    requires l.accumulatedTime >= 0.0 && currentTime >= l.lastTime
    ensures RunFrame(SetTargetFpsAsWritten(l, fps), currentTime, updateTime, drawTime) == Hung
  {
  }

  /** With the guard, the same request leaves the loop draining normally. */
  lemma GuardedTargetKeepsDraining(l: Loop, fps: real, currentTime: real, updateTime: real, drawTime: real)
    requires l.isRunning && !l.isPaused && ValidStep(l.timeStep)
    ensures RunFrame(SetTargetFps(l, fps), currentTime, updateTime, drawTime).Ran?
  {
  }
}

/**
 * js/entities/Platform.js: the four platform variants and their per-tick
 * behaviour. The source keeps three boolean flags derived from the type
 * string; here the variant is a tagged union, and the flags are
 * predicates over it.
 *
 * Colour, animation timer and drawing are not modelled. The breaking
 * shake reads the wall clock through `Math.sin(Date.now() / 50)`; that
 * value is passed in as `shake`, a number in [-1, 1].
 */
module Platform {
  import opened Shapes
  import Helpers

  datatype Kind = Normal | Moving | Breakable | JumpBoost

  const MoveDistance: real := 100.0
  const BreakDuration: real := 1000.0
  const JumpBoostForce: real := -18.0
  const DefaultWidth: real := 128.0
  const DefaultHeight: real := 32.0

  /** The constructor's `type === ...` comparisons: any other string, `'normal'` included, is a plain platform. */
  function KindOf(t: string): (k: Kind)
    ensures k == Moving <==> t == "moving"
    ensures k == Breakable <==> t == "breakable"
    ensures k == JumpBoost <==> t == "jumpBoost"
  {
    if t == "moving" then Moving
    else if t == "breakable" then Breakable
    else if t == "jumpBoost" then JumpBoost
    else Normal
  }

  datatype Platform = Platform(
    x: real, y: real,
    width: real, height: real,
    kind: Kind,
    moveDirection: real,
    originalX: real,
    isBreaking: bool,
    breakTimer: real,
    breakProgress: real)

  predicate IsMoving(p: Platform) { p.kind == Moving }
  predicate IsBreakable(p: Platform) { p.kind == Breakable }
  predicate IsJumpBoost(p: Platform) { p.kind == JumpBoost }

  /** `moveSpeed`: 2 for a moving platform and 0 otherwise. */
  function MoveSpeed(p: Platform): real {
    if IsMoving(p) then 2.0 else 0.0
  }

  /** The constructor: not breaking, moving in the positive direction, anchored at `x`. */
  function Create(x: real, y: real, width: real, height: real, t: string): (p: Platform)
    ensures p.x == x && p.y == y && p.width == width && p.height == height
    ensures p.kind == KindOf(t) && p.originalX == x && p.moveDirection == 1.0
    ensures !p.isBreaking && p.breakTimer == 0.0 && p.breakProgress == 0.0
  {
    Platform(x, y, width, height, KindOf(t), 1.0, x, false, 0.0, 0.0)
  }

  /** At most one of the three flags is set, and `'normal'` (or any unknown type) sets none. */
  lemma FlagsExclusive(t: string)
    ensures var p := Create(0.0, 0.0, DefaultWidth, DefaultHeight, t);
            && (if IsMoving(p) then 1 else 0) + (if IsBreakable(p) then 1 else 0) + (if IsJumpBoost(p) then 1 else 0) <= 1
            && (t != "moving" && t != "breakable" && t != "jumpBoost" ==> !IsMoving(p) && !IsBreakable(p) && !IsJumpBoost(p))
  {
  }

  /**
   * `updateMovement`: moves by speed × direction × `deltaTime`, then
   * clamps to the travel range around `originalX`, turning back (-1) at
   * the upper end and forward (+1) at the lower end.
   */
  function UpdateMovement(p: Platform, deltaTime: real): (r: Platform)
    ensures p.originalX - MoveDistance <= r.x <= p.originalX + MoveDistance
    ensures r.x == p.originalX + MoveDistance && p.x + MoveSpeed(p) * p.moveDirection * deltaTime > r.x ==> r.moveDirection == -1.0
    ensures r.x == p.originalX - MoveDistance && p.x + MoveSpeed(p) * p.moveDirection * deltaTime < r.x ==> r.moveDirection == 1.0
    ensures r.(x := p.x, moveDirection := p.moveDirection) == p
  {
    var x := p.x + MoveSpeed(p) * p.moveDirection * deltaTime;
    if x > p.originalX + MoveDistance then p.(x := p.originalX + MoveDistance, moveDirection := -1.0)
    else if x < p.originalX - MoveDistance then p.(x := p.originalX - MoveDistance, moveDirection := 1.0)
    else p.(x := x)
  }

  /**
   * `updateBreaking`: the timer advances and the progress is its share of
   * `BreakDuration`. Before the end the platform shakes around
   * `originalX` by at most twice the remaining share; at the end it
   * collapses to zero width and height.
   */
  function UpdateBreaking(p: Platform, deltaTime: real, shake: real): (r: Platform)
    requires -1.0 <= shake <= 1.0
    ensures r.breakTimer == p.breakTimer + deltaTime && r.breakProgress * BreakDuration == r.breakTimer
    ensures r.breakProgress < 1.0 ==>
              && r.width == p.width && r.height == p.height
              && -2.0 * (1.0 - r.breakProgress) <= r.x - p.originalX <= 2.0 * (1.0 - r.breakProgress)
    ensures r.breakProgress >= 1.0 <==> r.breakTimer >= BreakDuration
    ensures r.breakTimer >= BreakDuration ==> r.width == 0.0 && r.height == 0.0
    ensures r.y == p.y && r.kind == p.kind && r.originalX == p.originalX && r.isBreaking == p.isBreaking
  {
    var timer := p.breakTimer + deltaTime;
    var progress := timer / BreakDuration;
    assert progress * BreakDuration == timer;
    assert progress < 1.0 <==> timer < BreakDuration;
    if progress < 1.0 then
      var intensity := 1.0 - progress;
      var offset := shake * 2.0 * intensity;
      ShakeBound(shake, intensity, offset);
      p.(breakTimer := timer, breakProgress := progress, x := p.originalX + offset)
    else
      p.(breakTimer := timer, breakProgress := progress, width := 0.0, height := 0.0)
  }

  lemma ShakeBound(shake: real, intensity: real, offset: real)
    requires -1.0 <= shake <= 1.0 && 0.0 < intensity && offset == shake * 2.0 * intensity
    ensures -2.0 * intensity <= offset <= 2.0 * intensity
  {
    Helpers.ProductNonNegative(1.0 - shake, intensity);
    Helpers.ProductNonNegative(1.0 + shake, intensity);
  }

  /**
   * `startBreaking`: only a breakable platform that is not yet breaking
   * starts, anchoring the shake at its current position.
   */
  function StartBreaking(p: Platform): (r: Platform)
    ensures !IsBreakable(p) || p.isBreaking ==> r == p
    ensures IsBreakable(p) && !p.isBreaking ==>
              r == p.(isBreaking := true, originalX := p.x, breakTimer := 0.0, breakProgress := 0.0)
  {
    if IsBreakable(p) && !p.isBreaking then
      p.(isBreaking := true, originalX := p.x, breakTimer := 0.0, breakProgress := 0.0)
    else p
  }

  /** Starting to break twice is the same as once. */
  lemma StartBreakingIdempotent(p: Platform)
    ensures StartBreaking(StartBreaking(p)) == StartBreaking(p)
  {
  }

  /**
   * `update`: only a moving platform moves, and only a breakable platform
   * that has started breaking advances its break.
   */
  function Update(p: Platform, deltaTime: real, shake: real): (r: Platform)
    requires -1.0 <= shake <= 1.0
    ensures p.kind == Normal || p.kind == JumpBoost ==> r == p
    ensures IsMoving(p) ==> r == UpdateMovement(p, deltaTime)
    ensures IsBreakable(p) && !p.isBreaking ==> r == p
    ensures IsBreakable(p) && p.isBreaking ==> r == UpdateBreaking(p, deltaTime, shake)
    ensures r.kind == p.kind && r.y == p.y
  {
    var moved := if IsMoving(p) then UpdateMovement(p, deltaTime) else p;
    if IsBreakable(moved) && moved.isBreaking then UpdateBreaking(moved, deltaTime, shake) else moved
  }

  /** A collapsed platform stays collapsed: nothing restores its size. */
  lemma CollapsedStaysCollapsed(p: Platform, deltaTime: real, shake: real)
    requires -1.0 <= shake <= 1.0
    requires p.width == 0.0 && p.height == 0.0
    ensures Update(p, deltaTime, shake).width == 0.0 && Update(p, deltaTime, shake).height == 0.0
    ensures StartBreaking(p).width == 0.0 && StartBreaking(p).height == 0.0
  {
  }

  /**
   * Over a run of non-negative ticks, a breaking platform has collapsed at
   * the end exactly when its timer has reached the break duration: never
   * earlier, and it is not restored afterwards.
   */
  lemma {:induction false} CollapsesOnSchedule(p: Platform, ticks: seq<real>, shakes: seq<real>)
    requires IsBreakable(p) && p.isBreaking && p.width != 0.0
    requires p.breakTimer < BreakDuration
    requires |ticks| == |shakes|
    requires forall i :: 0 <= i < |shakes| ==> -1.0 <= shakes[i] <= 1.0
    requires forall i :: 0 <= i < |ticks| ==> 0.0 <= ticks[i]
    ensures Run(p, ticks, shakes).breakTimer == p.breakTimer + Sum(ticks)
    ensures Run(p, ticks, shakes).width == 0.0 <==> p.breakTimer + Sum(ticks) >= BreakDuration
    decreases |ticks|
  {
    RunTimer(p, ticks, shakes);
    if |ticks| > 0 {
      var p1 := Update(p, ticks[0], shakes[0]);
      SumNonNegative(ticks[1..]);
      if p1.breakTimer >= BreakDuration {
        RunCollapsed(p1, ticks[1..], shakes[1..]);
      } else {
        CollapsesOnSchedule(p1, ticks[1..], shakes[1..]);
      }
    }
  }

  lemma {:induction false} RunTimer(p: Platform, ticks: seq<real>, shakes: seq<real>)
    requires IsBreakable(p) && p.isBreaking
    requires |ticks| == |shakes|
    requires forall i :: 0 <= i < |shakes| ==> -1.0 <= shakes[i] <= 1.0
    ensures Run(p, ticks, shakes).breakTimer == p.breakTimer + Sum(ticks)
    decreases |ticks|
  {
    if |ticks| > 0 {
      RunTimer(Update(p, ticks[0], shakes[0]), ticks[1..], shakes[1..]);
    }
  }

  lemma {:induction false} SumNonNegative(s: seq<real>)
    requires forall i :: 0 <= i < |s| ==> 0.0 <= s[i]
    ensures 0.0 <= Sum(s)
  {
    if |s| > 0 {
      SumNonNegative(s[1..]);
    }
  }

  /** Runs `Update` over a sequence of ticks. */
  function Run(p: Platform, ticks: seq<real>, shakes: seq<real>): (r: Platform)
    requires |ticks| == |shakes|
    requires forall i :: 0 <= i < |shakes| ==> -1.0 <= shakes[i] <= 1.0
    ensures r.kind == p.kind && r.isBreaking == p.isBreaking
    decreases |ticks|
  {
    if |ticks| == 0 then p else Run(Update(p, ticks[0], shakes[0]), ticks[1..], shakes[1..])
  }

  function Sum(s: seq<real>): real
    decreases |s|
  {
    if |s| == 0 then 0.0 else s[0] + Sum(s[1..])
  }

  lemma {:induction false} RunCollapsed(p: Platform, ticks: seq<real>, shakes: seq<real>)
    requires |ticks| == |shakes|
    requires forall i :: 0 <= i < |shakes| ==> -1.0 <= shakes[i] <= 1.0
    requires p.width == 0.0 && p.height == 0.0
    ensures Run(p, ticks, shakes).width == 0.0
    decreases |ticks|
  {
    if |ticks| > 0 {
      CollapsedStaysCollapsed(p, ticks[0], shakes[0]);
      RunCollapsed(Update(p, ticks[0], shakes[0]), ticks[1..], shakes[1..]);
    }
  }

  /** `getCollisionRect` (and the `bounds` kept by `updateBounds`): the current position and size. */
  function GetCollisionRect(p: Platform): (r: Rect)
    ensures r.x == p.x && r.y == p.y && r.width == p.width && r.height == p.height
  {
    Rect(p.x, p.y, p.width, p.height)
  }

  /** The `bounds` record: top, bottom, left and right edges. */
  datatype Bounds = Bounds(top: real, bottom: real, left: real, right: real)

  /** `updateBounds`: the edges follow the current position and size. */
  function UpdateBounds(p: Platform): (b: Bounds)
    ensures b.bottom - b.top == p.height && b.right - b.left == p.width
    ensures b.left == GetCollisionRect(p).x && b.top == GetCollisionRect(p).y
  {
    Bounds(p.y, p.y + p.height, p.x, p.x + p.width)
  }
}

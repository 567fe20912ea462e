/**
 * The pure numeric and geometric helpers of js/utils/Helpers.js, and its
 * particle-list update. Particles keep only the fields the simulation reads:
 * position, velocity, remaining life and its decay rate (colour and radius
 * are presentation).
 */
module Helpers {
  import opened Shapes
  import Vector2

  /** `Math.max(min, Math.min(max, value))`. */
  function Clamp(value: real, min: real, max: real): (r: real)
    ensures min <= max ==> min <= r <= max
    ensures min <= value <= max ==> r == value
    ensures value < min ==> r == min
    ensures min <= max < value ==> r == max
    ensures max < min ==> r == min
  {
    var upper := if max < value then max else value;
    if min > upper then min else upper
  }

  /** Clamping twice into the same non-empty range changes nothing more. */
  lemma ClampIdempotent(value: real, min: real, max: real)
    requires min <= max
    ensures Clamp(Clamp(value, min, max), min, max) == Clamp(value, min, max)
  {
  }

  /** `Math.abs`. */
  function Abs(x: real): (r: real)
    ensures 0.0 <= r && (r == x || r == -x)
  {
    if x < 0.0 then -x else x
  }

  /** Linear interpolation `a + (b - a) * t`. */
  function Lerp(a: real, b: real, t: real): (r: real)
    ensures t == 0.0 ==> r == a
    ensures t == 1.0 ==> r == b
  {
    a + (b - a) * t
  }

  lemma ProductNonNegative(d: real, t: real)
    requires 0.0 <= d && 0.0 <= t
    ensures 0.0 <= d * t
  {
  }

  lemma ProductAtMost(d: real, t: real)
    requires 0.0 <= d && t <= 1.0
    ensures d * t <= d
  {
    assert d * (1.0 - t) >= 0.0;
  }

  /*
   * Facts about squares are stated about a named product `p`: the solver
   * does not reuse a hypothesis such as `0 < a * a` directly.
   */
  lemma ProductPositive(a: real, b: real, p: real)
    requires 0.0 < a && 0.0 < b && p == a * b
    ensures 0.0 < p
  {
  }

  lemma PositiveSquare(a: real, p: real)
    requires a != 0.0 && p == a * a
    ensures 0.0 < p
  {
    if a < 0.0 {
      ProductPositive(-a, -a, p);
    } else {
      ProductPositive(a, a, p);
    }
  }

  lemma ZeroSquare(a: real, p: real)
    requires a == 0.0 && p == a * a
    ensures p == 0.0
  {
  }

  lemma ZeroFactor(a: real, s: real, p: real)
    requires s > 0.0 && p == a * s && p == 0.0
    ensures a == 0.0
  {
    if a > 0.0 {
      ProductPositive(a, s, p);
    } else if a < 0.0 {
      ProductPositive(-a, s, -p);
    }
  }

  /** Taking one step off the numerator takes one off the quotient. */
  lemma DivShift(a: real, s: real)
    requires s > 0.0
    ensures (a - s) / s == a / s - 1.0
  {
    var q := a / s;
    var q2 := (a - s) / s;
    assert q * s == a;
    assert q2 * s == a - s;
    ZeroFactor(q2 - q + 1.0, s, (q2 - q + 1.0) * s);
  }

  lemma DivBelowOne(x: real, s: real)
    requires s > 0.0 && 0.0 <= x < s
    ensures 0.0 <= x / s < 1.0
  {
    var q := x / s;
    assert q * s == x;
    if q >= 1.0 {
      ProductNonNegative(q - 1.0, s);
    }
    if q < 0.0 {
      ProductPositive(-q, s, -q * s);
    }
  }

  /** Stated without a precondition, so that function bodies can call it on any operands. */
  lemma DivAtMostOne(x: real, s: real)
    ensures s > 0.0 && 0.0 <= x <= s ==> 0.0 <= x / s <= 1.0
    ensures s > 0.0 ==> (x / s == 1.0 <==> x == s)
  {
    if s > 0.0 {
      var q := x / s;
      assert q * s == x;
      if 0.0 <= x <= s {
        if q > 1.0 {
          ProductPositive(q - 1.0, s, (q - 1.0) * s);
        }
        if q < 0.0 {
          ProductPositive(-q, s, -q * s);
        }
      }
    }
  }

  lemma DivSplit(a: real, t: real, r: real, s: real)
    requires s > 0.0 && a == t * s + r
    ensures a / s == t + r / s
  {
    assert (a / s) * s == a;
    assert (r / s) * s == r;
    ZeroFactor(a / s - t - r / s, s, (a / s - t - r / s) * s);
  }

  /** For `t` in [0, 1] the interpolant lies between the two ends. */
  lemma LerpBetween(a: real, b: real, t: real)
    requires a <= b && 0.0 <= t <= 1.0
    ensures a <= Lerp(a, b, t) <= b
  {
    ProductNonNegative(b - a, t);
    ProductAtMost(b - a, t);
  }

  /**
   * `rectIntersect`: strict overlap on both axes, so rectangles that only
   * share an edge do not intersect, and intersecting rectangles have a
   * positive combined extent on each axis.
   */
  function RectIntersect(r1: Rect, r2: Rect): (b: bool)
    ensures b ==> 0.0 < r1.width + r2.width && 0.0 < r1.height + r2.height
    ensures r1.x + r1.width == r2.x || r2.x + r2.width == r1.x ==> !b
    ensures r1.y + r1.height == r2.y || r2.y + r2.height == r1.y ==> !b
  {
    r1.x < r2.x + r2.width && r1.x + r1.width > r2.x &&
    r1.y < r2.y + r2.height && r1.y + r1.height > r2.y
  }

  /** The point of the rectangle closest to the circle's centre. */
  function ClosestPoint(c: Circle, r: Rect): (p: Vector2.Vec)
    ensures r.width >= 0.0 ==> r.x <= p.x <= r.x + r.width
    ensures r.height >= 0.0 ==> r.y <= p.y <= r.y + r.height
  {
    Vector2.Vec(Clamp(c.x, r.x, r.x + r.width), Clamp(c.y, r.y, r.y + r.height))
  }

  /** Squared distance from the circle's centre to its closest rectangle point. */
  function ClosestDistanceSquared(c: Circle, r: Rect): (d: real)
    ensures 0.0 <= d
  {
    Vector2.LengthSquared(Vector2.Subtract(Vector2.Vec(c.x, c.y), ClosestPoint(c, r)))
  }

  /**
   * `circleRectIntersect`: the Euclidean distance to the closest point is at
   * most the radius. With a non-negative radius this is the comparison of
   * squares that `checkCircleRectCollision` uses; a negative radius never
   * intersects.
   */
  function CircleRectIntersect(c: Circle, r: Rect, sqrt: real -> real): (b: bool)
    requires Vector2.SqrtSpec(sqrt)
    ensures 0.0 <= c.radius ==> (b <==> ClosestDistanceSquared(c, r) <= c.radius * c.radius)
    ensures c.radius < 0.0 ==> !b
  {
    var d := ClosestDistanceSquared(c, r);
    var s := sqrt(d);
    assert 0.0 <= s && s * s == d;
    if 0.0 < c.radius then
      SquareMonotone(s, c.radius);
      s <= c.radius
    else
      s <= c.radius
  }

  /** For non-negative `a` and positive `b`: `a <= b` exactly when `a * a <= b * b`. */
  lemma SquareMonotone(a: real, b: real)
    requires 0.0 <= a && 0.0 < b
    ensures a <= b <==> a * a <= b * b
  {
    if a <= b {
      assert a * a <= a * b;
      assert a * b <= b * b;
    } else {
      assert b * a <= a * a;
      assert b * b < b * a;
    }
  }

  datatype Particle = Particle(x: real, y: real, vx: real, vy: real, life: real, decay: real)

  /** One particle after `deltaTime`: it moves by its velocity and loses `decay` life per unit time. */
  function Advance(p: Particle, deltaTime: real): (q: Particle)
    ensures q.x - p.x == p.vx * deltaTime && q.y - p.y == p.vy * deltaTime
    ensures q.life + p.decay * deltaTime == p.life
    ensures q.vx == p.vx && q.vy == p.vy && q.decay == p.decay
  {
    p.(x := p.x + p.vx * deltaTime, y := p.y + p.vy * deltaTime, life := p.life - p.decay * deltaTime)
  }

  predicate Alive(p: Particle) {
    p.life > 0.0
  }

  /** Reference definition: advance every particle and keep those still alive, in order. */
  function Survivors(ps: seq<Particle>, deltaTime: real): (r: seq<Particle>)
    ensures |r| <= |ps|
    ensures forall k :: 0 <= k < |r| ==> Alive(r[k])
  {
    if |ps| == 0 then []
    else
      var q := Advance(ps[0], deltaTime);
      (if Alive(q) then [q] else []) + Survivors(ps[1..], deltaTime)
  }

  /**
   * `updateParticles`: walks the list backwards, advancing each particle
   * and splicing out those whose life has run out.
   */
  method UpdateParticles(ps: seq<Particle>, deltaTime: real) returns (out: seq<Particle>)
    ensures out == Survivors(ps, deltaTime)
    ensures |out| <= |ps|
  {
    out := ps;
    var i := |ps|;
    while i > 0
      invariant 0 <= i <= |ps|
      invariant out == ps[..i] + Survivors(ps[i..], deltaTime)
    {
      i := i - 1;
      assert ps[i..] == [ps[i]] + ps[i + 1..];
      var p := Advance(out[i], deltaTime);
      if p.life <= 0.0 {
        out := out[..i] + out[i + 1..];
      } else {
        out := out[..i] + [p] + out[i + 1..];
      }
    }
    assert ps[0..] == ps;
  }

  /** Indices of the particles that survive, as positions in the input list. */
  function SurvivingIndices(ps: seq<Particle>, deltaTime: real): (idx: seq<nat>)
    ensures forall k :: 0 <= k < |idx| ==> idx[k] < |ps|
    ensures forall k, l :: 0 <= k < l < |idx| ==> idx[k] < idx[l]
    ensures forall i :: 0 <= i < |ps| ==> (i in idx <==> Alive(Advance(ps[i], deltaTime)))
  {
    if |ps| == 0 then []
    else
      var rest := SurvivingIndices(ps[1..], deltaTime);
      var shifted := Shift(rest);
      var alive := Alive(Advance(ps[0], deltaTime));
      forall i | 1 <= i < |ps|
        ensures i in shifted <==> i - 1 in rest
      {
        ShiftMembers(rest, i);
      }
      assert forall i :: 1 <= i < |ps| ==> ps[i] == ps[1..][i - 1];
      PrependZero(alive, shifted, |ps|);
      (if alive then [0] else []) + shifted
  }

  /**
   * Putting index 0 in front of a strictly increasing list of indices in
   * [1, n), for positive `n`, keeps it strictly increasing and below `n`,
   * and adds only 0.
   */
  lemma PrependZero(alive: bool, shifted: seq<nat>, n: nat)
    requires 0 < n
    requires forall k :: 0 <= k < |shifted| ==> 1 <= shifted[k] < n
    requires forall k, l :: 0 <= k < l < |shifted| ==> shifted[k] < shifted[l]
    ensures var idx := (if alive then [0] else []) + shifted;
            && (forall k :: 0 <= k < |idx| ==> idx[k] < n)
            && (forall k, l :: 0 <= k < l < |idx| ==> idx[k] < idx[l])
            && (0 in idx <==> alive)
            && (forall i :: 1 <= i ==> (i in idx <==> i in shifted))
  {
    var idx := (if alive then [0] else []) + shifted;
    assert forall k :: 0 <= k < |shifted| ==> shifted[k] != 0;
    assert 0 !in shifted;
    if alive {
      assert idx[0] == 0 && 0 in idx;
      assert forall k :: 1 <= k < |idx| ==> idx[k] == shifted[k - 1];
      forall k, l | 0 <= k < l < |idx|
        ensures idx[k] < idx[l]
      {
        assert idx[l] == shifted[l - 1];
        if 0 < k {
          assert idx[k] == shifted[k - 1];
        }
      }
      forall i | 1 <= i
        ensures i in idx <==> i in shifted
      {
        assert i in idx <==> i in [0] || i in shifted;
      }
    } else {
      assert idx == shifted;
    }
  }

  /** Every index moved one position up. */
  function Shift(idx: seq<nat>): (s: seq<nat>)
    ensures |s| == |idx|
    ensures forall k :: 0 <= k < |s| ==> s[k] == idx[k] + 1
  {
    seq(|idx|, k requires 0 <= k < |idx| => idx[k] + 1)
  }

  /** A positive index is in the shifted list exactly when its predecessor was in the original. */
  lemma ShiftMembers(idx: seq<nat>, i: int)
    requires 1 <= i
    ensures i in Shift(idx) <==> i - 1 in idx
  {
    var s := Shift(idx);
    if i - 1 in idx {
      var k :| 0 <= k < |idx| && idx[k] == i - 1;
      assert s[k] == i;
    }
  }

  /**
   * The survivors are exactly the advanced particles at the surviving
   * indices, in increasing index order: relative order is preserved.
   */
  lemma {:induction false} SurvivorsKeepOrder(ps: seq<Particle>, deltaTime: real)
    ensures |Survivors(ps, deltaTime)| == |SurvivingIndices(ps, deltaTime)|
    ensures forall k :: 0 <= k < |Survivors(ps, deltaTime)| ==>
              Survivors(ps, deltaTime)[k] == Advance(ps[SurvivingIndices(ps, deltaTime)[k]], deltaTime)
  {
    if |ps| > 0 {
      var tail := ps[1..];
      SurvivorsKeepOrder(tail, deltaTime);
      var q := Advance(ps[0], deltaTime);
      var survivors := Survivors(tail, deltaTime);
      var shifted := Shift(SurvivingIndices(tail, deltaTime));
      forall k | 0 <= k < |survivors|
        ensures survivors[k] == Advance(ps[shifted[k]], deltaTime)
      {
        assert ps[shifted[k]] == tail[shifted[k] - 1];
      }
      var all := Survivors(ps, deltaTime);
      var idx := SurvivingIndices(ps, deltaTime);
      if Alive(q) {
        assert all == [q] + survivors;
        assert idx == [0] + shifted;
        forall k | 0 <= k < |all|
          ensures all[k] == Advance(ps[idx[k]], deltaTime)
        {
          if 0 < k {
            assert all[k] == survivors[k - 1] && idx[k] == shifted[k - 1];
          }
        }
      } else {
        assert all == survivors;
        assert idx == shifted;
      }
    }
  }
}

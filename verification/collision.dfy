/**
 * js/CollisionSystem.js: overlap tests between rectangles, circles and
 * points, the sampled line-of-sight test, and the two resolvers.
 *
 * The debug history (`logCollision`, `collisionHistory`) is not modelled.
 */
module CollisionSystem {
  import opened Shapes
  import opened Wrappers
  import Vector2
  import Helpers

  /**
   * The result of `checkCollision`. A miss has no side and a zero
   * penetration; a hit carries both per-axis overlaps.
   */
  datatype RectCollision = RectCollision(collided: bool, side: Option<Side>, penetration: Vector2.Vec)

  /** The rectangles overlap strictly along one axis (touching edges do not count). */
  predicate AxisOverlap(pos1: real, size1: real, pos2: real, size2: real) {
    pos1 < pos2 + size2 && pos1 + size1 > pos2
  }

  /** Distance between the two centres along one axis, and the sum of the half-extents. */
  function CentreDiff(pos1: real, size1: real, pos2: real, size2: real): real {
    (pos2 + size2 / 2.0) - (pos1 + size1 / 2.0)
  }

  function HalfExtents(size1: real, size2: real): real {
    (size1 + size2) / 2.0
  }

  /**
   * `calculateOverlap`: zero when the centres are at least the half-extent
   * sum apart; otherwise the overlap depth, positive when the second
   * interval's centre lies strictly after the first's and negative
   * otherwise (equal centres included).
   */
  function CalculateOverlap(pos1: real, size1: real, pos2: real, size2: real): (r: real)
    ensures var diff := CentreDiff(pos1, size1, pos2, size2);
            var m := HalfExtents(size1, size2);
            && (Helpers.Abs(diff) >= m ==> r == 0.0)
            && (Helpers.Abs(diff) < m ==> Helpers.Abs(r) == m - Helpers.Abs(diff) && Helpers.Abs(r) > 0.0)
            && (Helpers.Abs(diff) < m ==> (r > 0.0 <==> diff > 0.0))
  {
    var center1 := pos1 + size1 / 2.0;
    var center2 := pos2 + size2 / 2.0;
    var diff := center2 - center1;
    var minDistance := (size1 + size2) / 2.0;
    if Helpers.Abs(diff) < minDistance then
      (if diff > 0.0 then minDistance - diff else -minDistance - diff)
    else 0.0
  }

  /** Strict overlap along an axis is the same as centres closer than the half-extent sum. */
  lemma AxisOverlapByCentres(pos1: real, size1: real, pos2: real, size2: real)
    ensures AxisOverlap(pos1, size1, pos2, size2)
        <==> Helpers.Abs(CentreDiff(pos1, size1, pos2, size2)) < HalfExtents(size1, size2)
  {
  }

  /**
   * `checkCollision`: collided exactly when the rectangles overlap strictly
   * on both axes. The side comes from the axis with the strictly smaller
   * absolute overlap, ties going to the vertical axis; a negative overlap
   * gives `Left`/`Top` and a positive one `Right`/`Bottom`.
   */
  function CheckCollision(r1: Rect, r2: Rect): (c: RectCollision)
    ensures c.collided <==> AxisOverlap(r1.x, r1.width, r2.x, r2.width) && AxisOverlap(r1.y, r1.height, r2.y, r2.height)
    ensures !c.collided ==> c.side == None && c.penetration == Vector2.Zero
    ensures c.collided ==> c.side.Some? && c.penetration.x != 0.0 && c.penetration.y != 0.0
    ensures c.collided ==>
              c.penetration == Vector2.Vec(CalculateOverlap(r1.x, r1.width, r2.x, r2.width),
                                           CalculateOverlap(r1.y, r1.height, r2.y, r2.height))
    ensures c.side == Some(Left) <==> c.collided && Helpers.Abs(c.penetration.x) < Helpers.Abs(c.penetration.y) && c.penetration.x < 0.0
    ensures c.side == Some(Right) <==> c.collided && Helpers.Abs(c.penetration.x) < Helpers.Abs(c.penetration.y) && c.penetration.x > 0.0
    ensures c.side == Some(Top) <==> c.collided && Helpers.Abs(c.penetration.x) >= Helpers.Abs(c.penetration.y) && c.penetration.y < 0.0
    ensures c.side == Some(Bottom) <==> c.collided && Helpers.Abs(c.penetration.x) >= Helpers.Abs(c.penetration.y) && c.penetration.y > 0.0
  {
    var collisionX := AxisOverlap(r1.x, r1.width, r2.x, r2.width);
    var collisionY := AxisOverlap(r1.y, r1.height, r2.y, r2.height);
    if !collisionX || !collisionY then
      RectCollision(false, None, Vector2.Zero)
    else
      AxisOverlapByCentres(r1.x, r1.width, r2.x, r2.width);
      AxisOverlapByCentres(r1.y, r1.height, r2.y, r2.height);
      var overlapX := CalculateOverlap(r1.x, r1.width, r2.x, r2.width);
      var overlapY := CalculateOverlap(r1.y, r1.height, r2.y, r2.height);
      var side :=
        if Helpers.Abs(overlapX) < Helpers.Abs(overlapY) then (if overlapX < 0.0 then Left else Right)
        else (if overlapY < 0.0 then Top else Bottom);
      RectCollision(true, Some(side), Vector2.Vec(overlapX, overlapY))
  }

  /** `Helpers.rectIntersect` is the same test as `checkCollision(...).collided`. */
  lemma RectIntersectAgrees(r1: Rect, r2: Rect)
    ensures Helpers.RectIntersect(r1, r2) <==> CheckCollision(r1, r2).collided
  {
  }

  /** Rectangles that only share an edge do not collide. */
  lemma EdgeTouchingDoesNotCollide(r1: Rect, r2: Rect)
    requires r1.x + r1.width == r2.x || r2.x + r2.width == r1.x
          || r1.y + r1.height == r2.y || r2.y + r2.height == r1.y
    ensures !CheckCollision(r1, r2).collided
  {
  }

  /** Where a circle touches a rectangle: one of the four edges, or from inside. */
  datatype CircleSide = Edge(side: Side) | Inside

  datatype CircleRectCollision = CircleRectCollision(collided: bool, side: Option<CircleSide>, penetration: real)

  /**
   * `checkCircleRectCollision`: collided exactly when the squared distance
   * to the closest point is at most the squared radius (the boundary
   * counts). The side is chosen by which clamp was active, tested in the
   * order left, right, top, bottom; a centre strictly inside reports
   * `Inside`. The penetration is the radius minus the distance.
   */
  function CheckCircleRectCollision(c: Circle, r: Rect, sqrt: real -> real): (res: CircleRectCollision)
    requires Vector2.SqrtSpec(sqrt)
    ensures res.collided <==> Helpers.ClosestDistanceSquared(c, r) <= c.radius * c.radius
    ensures !res.collided ==> res.side == None && res.penetration == 0.0
    ensures res.collided ==> res.side.Some? && res.penetration <= c.radius
    ensures res.collided && 0.0 <= c.radius ==> 0.0 <= res.penetration
    ensures res.collided && 0.0 <= r.width && 0.0 <= r.height ==>
              (res.side == Some(Inside) <==> r.x < c.x < r.x + r.width && r.y < c.y < r.y + r.height)
    ensures res.side == Some(Edge(Left)) && 0.0 < r.width ==> c.x <= r.x
    ensures res.side == Some(Edge(Right)) && 0.0 <= r.width ==> r.x + r.width <= c.x
    ensures res.side == Some(Edge(Top)) && 0.0 < r.height ==> c.y <= r.y
    ensures res.side == Some(Edge(Bottom)) && 0.0 <= r.height ==> r.y + r.height <= c.y
    ensures res.collided ==> res.side == Some(SideOf(c, r))
    ensures res.collided ==> res.penetration == c.radius - sqrt(Helpers.ClosestDistanceSquared(c, r))
  {
    var distanceSquared := Helpers.ClosestDistanceSquared(c, r);
    if distanceSquared > c.radius * c.radius then
      CircleRectCollision(false, None, 0.0)
    else
      var distance := sqrt(distanceSquared);
      PenetrationBounds(distance, distanceSquared, c.radius);
      CircleRectCollision(true, Some(SideOf(c, r)), c.radius - distance)
  }

  /**
   * The side `checkCircleRectCollision` reports: which clamp of the closest
   * point is active, tested in the order left, right, top, bottom, and
   * `Inside` when none is.
   */
  function SideOf(c: Circle, r: Rect): (s: CircleSide)
    ensures s == Edge(Left) && 0.0 < r.width ==> c.x <= r.x
    ensures s == Edge(Right) && 0.0 <= r.width ==> r.x + r.width <= c.x
    ensures s == Edge(Top) && 0.0 < r.height ==> c.y <= r.y
    ensures s == Edge(Bottom) && 0.0 <= r.height ==> r.y + r.height <= c.y
    ensures 0.0 <= r.width && 0.0 <= r.height ==>
              (s == Inside <==> r.x < c.x < r.x + r.width && r.y < c.y < r.y + r.height)
    ensures 0.0 < r.width && 0.0 < r.height ==>
              && (s == Edge(Left) <==> c.x <= r.x)
              && (s == Edge(Right) <==> r.x < c.x && r.x + r.width <= c.x)
              && (s == Edge(Top) <==> r.x < c.x < r.x + r.width && c.y <= r.y)
              && (s == Edge(Bottom) <==> r.x < c.x < r.x + r.width && r.y < c.y && r.y + r.height <= c.y)
  {
    var closest := Helpers.ClosestPoint(c, r);
    if closest.x == r.x then Edge(Left)
    else if closest.x == r.x + r.width then Edge(Right)
    else if closest.y == r.y then Edge(Top)
    else if closest.y == r.y + r.height then Edge(Bottom)
    else Inside
  }

  /** A non-negative root of a squared distance within `radius²` is at most `radius`. */
  lemma PenetrationBounds(distance: real, distanceSquared: real, radius: real)
    requires 0.0 <= distance && distance * distance == distanceSquared
    requires distanceSquared <= radius * radius
    ensures 0.0 <= radius ==> distance <= radius
  {
    if 0.0 < radius {
      Helpers.SquareMonotone(distance, radius);
    } else if 0.0 == radius && 0.0 < distance {
      Helpers.PositiveSquare(distance, distanceSquared);
      Helpers.ZeroSquare(radius, radius * radius);
    }
  }

  /**
   * For a non-negative radius, `Helpers.circleRectIntersect` and
   * `checkCircleRectCollision` agree.
   */
  lemma CircleRectTestsAgree(c: Circle, r: Rect, sqrt: real -> real)
    requires Vector2.SqrtSpec(sqrt)
    requires 0.0 <= c.radius
    ensures Helpers.CircleRectIntersect(c, r, sqrt) <==> CheckCircleRectCollision(c, r, sqrt).collided
  {
  }

  datatype CircleCollision = CircleCollision(collided: bool, penetration: real, normal: Vector2.Vec)

  /**
   * `checkCircleCircleCollision`: collided when the centre distance is at
   * most the radius sum. The normal points from the first centre to the
   * second with unit length; coincident centres get the normal (1, 0)
   * rather than a division by zero.
   */
  function CheckCircleCircleCollision(c1: Circle, c2: Circle, sqrt: real -> real): (res: CircleCollision)
    requires Vector2.SqrtSpec(sqrt)
    ensures var d := Vector2.Vec(c2.x - c1.x, c2.y - c1.y);
            0.0 <= c1.radius + c2.radius ==>
              (res.collided <==> Vector2.LengthSquared(d) <= (c1.radius + c2.radius) * (c1.radius + c2.radius))
    ensures !res.collided ==> res.penetration == 0.0 && res.normal == Vector2.Zero
    ensures var d := Vector2.Vec(c2.x - c1.x, c2.y - c1.y);
            res.collided ==> res.penetration == c1.radius + c2.radius - Vector2.Length(d, sqrt)
    ensures res.collided && c1.x == c2.x && c1.y == c2.y ==> res.normal == Vector2.Vec(1.0, 0.0)
    ensures var d := Vector2.Vec(c2.x - c1.x, c2.y - c1.y);
            res.collided && Vector2.Length(d, sqrt) > 0.0 ==>
              Vector2.LengthSquared(res.normal) == 1.0
              && Vector2.Multiply(res.normal, Vector2.Length(d, sqrt)) == d
  {
    var dx := c2.x - c1.x;
    var dy := c2.y - c1.y;
    var d := Vector2.Vec(dx, dy);
    var distance := Vector2.Length(d, sqrt);
    var radiusSum := c1.radius + c2.radius;
    CircleDistanceBySquares(distance, Vector2.LengthSquared(d), radiusSum);
    if distance > radiusSum then
      CircleCollision(false, 0.0, Vector2.Zero)
    else if distance > 0.0 then
      UnitNormal(d, distance);
      Helpers.PositiveSquare(distance, Vector2.LengthSquared(d));
      assert dx != 0.0 || dy != 0.0;
      CircleCollision(true, radiusSum - distance, Vector2.Divide(d, distance))
    else
      CircleCollision(true, radiusSum - distance, Vector2.Vec(1.0, 0.0))
  }

  /** A vector divided by its positive length is a unit vector that scales back to it. */
  lemma UnitNormal(d: Vector2.Vec, distance: real)
    requires 0.0 < distance && distance * distance == Vector2.LengthSquared(d)
    ensures Vector2.LengthSquared(Vector2.Divide(d, distance)) == 1.0
    ensures Vector2.Multiply(Vector2.Divide(d, distance), distance) == d
  {
    Vector2.UnitAfterDivide(d, distance);
  }

  lemma CircleDistanceBySquares(distance: real, distanceSquared: real, radiusSum: real)
    requires 0.0 <= distance && distance * distance == distanceSquared
    ensures 0.0 <= radiusSum ==> (distance <= radiusSum <==> distanceSquared <= radiusSum * radiusSum)
  {
    if 0.0 < radiusSum {
      Helpers.SquareMonotone(distance, radiusSum);
    } else if 0.0 == radiusSum && 0.0 < distance {
      Helpers.PositiveSquare(distance, distanceSquared);
      Helpers.ZeroSquare(radiusSum, radiusSum * radiusSum);
    } else if 0.0 == radiusSum {
      Helpers.ZeroSquare(radiusSum, radiusSum * radiusSum);
      Helpers.ZeroSquare(distance, distanceSquared);
    }
  }

  /**
   * `isPointInRect`: inclusive on all four edges. Only a rectangle of
   * non-negative size contains points, and for one it contains exactly the
   * points that are their own closest point of the rectangle.
   */
  function IsPointInRect(x: real, y: real, r: Rect): (b: bool)
    ensures b ==> 0.0 <= r.width && 0.0 <= r.height
    ensures 0.0 <= r.width && 0.0 <= r.height ==>
              (b <==> Helpers.ClosestPoint(Circle(x, y, 0.0), r) == Vector2.Vec(x, y))
  {
    x >= r.x && x <= r.x + r.width && y >= r.y && y <= r.y + r.height
  }

  /**
   * `isPointInCircle`: squared distance at most the squared radius. The
   * centre is always inside, and an inside point lies within the radius of
   * the centre on each axis.
   */
  function IsPointInCircle(x: real, y: real, c: Circle): (b: bool)
    ensures x == c.x && y == c.y ==> b
    ensures b ==> Helpers.Abs(x - c.x) <= Helpers.Abs(c.radius) && Helpers.Abs(y - c.y) <= Helpers.Abs(c.radius)
  {
    var dx := x - c.x;
    var dy := y - c.y;
    if dx * dx + dy * dy <= c.radius * c.radius then
      SquareBound(dx, dy, c.radius);
      SquareBound(dy, dx, c.radius);
      true
    else
      false
  }

  /** A coordinate whose square is within a squared radius lies within the radius. */
  lemma SquareBound(a: real, other: real, radius: real)
    requires a * a + other * other <= radius * radius
    ensures Helpers.Abs(a) <= Helpers.Abs(radius)
  {
    var u := Helpers.Abs(a);
    var v := Helpers.Abs(radius);
    assert u * u == a * a && v * v == radius * radius;
    assert 0.0 <= other * other;
    if v == 0.0 {
      assert u * u <= 0.0;
      if 0.0 < u {
        Helpers.PositiveSquare(u, u * u);
      }
    } else {
      Helpers.SquareMonotone(u, v);
    }
  }

  /** Some obstacle contains the point. */
  predicate Blocked(x: real, y: real, obstacles: seq<Rect>) {
    exists k :: 0 <= k < |obstacles| && IsPointInRect(x, y, obstacles[k])
  }

  /** `Math.ceil` for a non-negative real. */
  function Ceil(x: real): (n: int)
    ensures (n as real) - 1.0 < x <= n as real
  {
    -((-x).Floor)
  }

  /** The sample points: `start + i * unit` for `0 <= i < ceil(length)`. */
  function SamplePoint(x1: real, y1: real, stepX: real, stepY: real, i: int): Vector2.Vec {
    Vector2.Vec(x1 + stepX * (i as real), y1 + stepY * (i as real))
  }

  /**
   * Reference meaning of `checkLineOfSight`: visible when there are no
   * obstacles or the segment has zero length; otherwise visible exactly
   * when none of the `ceil(length)` sample points lies in an obstacle.
   */
  predicate LineOfSight(x1: real, y1: real, x2: real, y2: real, obstacles: seq<Rect>, sqrt: real -> real)
    requires Vector2.SqrtSpec(sqrt)
  {
    var d := Vector2.Vec(x2 - x1, y2 - y1);
    var length := Vector2.Length(d, sqrt);
    || |obstacles| == 0
    || length == 0.0
    || AllSamplesClear(x1, y1, d.x / length, d.y / length, Ceil(length), obstacles)
  }

  predicate AllSamplesClear(x1: real, y1: real, stepX: real, stepY: real, steps: int, obstacles: seq<Rect>) {
    forall i :: 0 <= i < steps ==> SampleClear(x1, y1, stepX, stepY, i, obstacles)
  }

  /** The `i`-th sample point lies in no obstacle. */
  predicate SampleClear(x1: real, y1: real, stepX: real, stepY: real, i: int, obstacles: seq<Rect>) {
    var p := SamplePoint(x1, y1, stepX, stepY, i);
    !Blocked(p.x, p.y, obstacles)
  }

  /** `checkLineOfSight`: walks the samples in order and stops at the first blocked one. */
  method CheckLineOfSight(x1: real, y1: real, x2: real, y2: real, obstacles: seq<Rect>, sqrt: real -> real)
    returns (visible: bool)
    requires Vector2.SqrtSpec(sqrt)
    ensures visible == LineOfSight(x1, y1, x2, y2, obstacles, sqrt)
  {
    if |obstacles| == 0 {
      return true;
    }
    var dx := x2 - x1;
    var dy := y2 - y1;
    var length := Vector2.Length(Vector2.Vec(dx, dy), sqrt);
    if length == 0.0 {
      return true;
    }
    var stepX := dx / length;
    var stepY := dy / length;
    var steps := Ceil(length);
    var i := 0;
    while i < steps
      invariant 0 <= i || steps <= 0
      invariant forall j :: 0 <= j < i ==> SampleClear(x1, y1, stepX, stepY, j, obstacles)
      decreases steps - i
    {
      var p := SamplePoint(x1, y1, stepX, stepY, i);
      var k := 0;
      while k < |obstacles|
        invariant 0 <= k <= |obstacles|
        invariant forall m :: 0 <= m < k ==> !IsPointInRect(p.x, p.y, obstacles[m])
      {
        if IsPointInRect(p.x, p.y, obstacles[k]) {
          assert !SampleClear(x1, y1, stepX, stepY, i, obstacles);
          return false;
        }
        k := k + 1;
      }
      i := i + 1;
    }
    return true;
  }

  /** The start point is always sampled: a segment starting inside an obstacle is never clear. */
  lemma StartPointSampled(x1: real, y1: real, x2: real, y2: real, obstacles: seq<Rect>, sqrt: real -> real, k: int)
    requires Vector2.SqrtSpec(sqrt)
    requires (x1, y1) != (x2, y2)
    requires 0 <= k < |obstacles| && IsPointInRect(x1, y1, obstacles[k])
    ensures !LineOfSight(x1, y1, x2, y2, obstacles, sqrt)
  {
    var d := Vector2.Vec(x2 - x1, y2 - y1);
    var length := Vector2.Length(d, sqrt);
    NonZeroLength(d, sqrt);
    var p := SamplePoint(x1, y1, d.x / length, d.y / length, 0);
    assert p == Vector2.Vec(x1, y1);
    assert Blocked(p.x, p.y, obstacles);
    assert !SampleClear(x1, y1, d.x / length, d.y / length, 0, obstacles);
  }

  /** A vector with a non-zero component has a positive length. */
  lemma NonZeroLength(d: Vector2.Vec, sqrt: real -> real)
    requires Vector2.SqrtSpec(sqrt)
    requires d != Vector2.Zero
    ensures Vector2.Length(d, sqrt) > 0.0
  {
    var sx := d.x * d.x;
    var sy := d.y * d.y;
    if d.x != 0.0 {
      Helpers.PositiveSquare(d.x, sx);
      NonNegativeSquare(d.y, sy);
    } else {
      Helpers.PositiveSquare(d.y, sy);
      NonNegativeSquare(d.x, sx);
    }
    var l := Vector2.Length(d, sqrt);
    if l == 0.0 {
      Helpers.ZeroSquare(l, l * l);
    }
  }

  lemma NonNegativeSquare(a: real, p: real)
    requires p == a * a
    ensures 0.0 <= p
  {
    if a != 0.0 {
      Helpers.PositiveSquare(a, p);
    }
  }

  /**
   * The endpoint may be missed: from (0, 0) to (2, 0) only x = 0 and x = 1
   * are sampled, so an obstacle covering [1.5, 2.5] around the target does
   * not block the view.
   */
  lemma EndPointNotSampled(sqrt: real -> real)
    requires Vector2.SqrtSpec(sqrt)
    ensures IsPointInRect(2.0, 0.0, Rect(1.5, -1.0, 1.0, 2.0))
    ensures LineOfSight(0.0, 0.0, 2.0, 0.0, [Rect(1.5, -1.0, 1.0, 2.0)], sqrt)
  {
    var d := Vector2.Vec(2.0, 0.0);
    var length := Vector2.Length(d, sqrt);
    assert length * length == 4.0;
    RootOfFour(length);
    assert Ceil(length) == 2;
    var obstacles := [Rect(1.5, -1.0, 1.0, 2.0)];
    forall i | 0 <= i < 2
      ensures SampleClear(0.0, 0.0, 1.0, 0.0, i, obstacles)
    {
      var p := SamplePoint(0.0, 0.0, 1.0, 0.0, i);
      assert p.x == i as real;
      assert !IsPointInRect(p.x, p.y, obstacles[0]);
    }
  }

  lemma RootOfFour(l: real)
    requires 0.0 <= l && l * l == 4.0
    ensures l == 2.0
  {
    if l == 0.0 {
      Helpers.ZeroSquare(l, l * l);
    } else if l < 2.0 {
      MulStrict(l, 2.0, l);
    } else if l > 2.0 {
      MulStrict(2.0, l, l);
    }
  }

  lemma MulStrict(a: real, b: real, c: real)
    requires 0.0 < c && a < b
    ensures a * c < b * c
  {
    Helpers.ProductPositive(b - a, c, (b - a) * c);
  }

  /** An object that can be pushed: its position and, when it has one, its velocity. */
  datatype Movable = Movable(x: real, y: real, velocity: Option<Vector2.Vec>)

  function ZeroVelocityX(v: Option<Vector2.Vec>): Option<Vector2.Vec> {
    match v
    case Some(w) => Some(w.(x := 0.0))
    case None => None
  }

  function ZeroVelocityY(v: Option<Vector2.Vec>): Option<Vector2.Vec> {
    match v
    case Some(w) => Some(w.(y := 0.0))
    case None => None
  }

  /**
   * `resolveRectCollision` as written: `Left` and `Top` subtract the
   * penetration, but `Right` and `Bottom` add it, which pushes the object
   * further into the other one.
   */
  function ResolveRectCollisionAsWritten(obj: Movable, info: RectCollision): (r: Movable)
    ensures info.side == None ==> r == obj
    ensures info.side == Some(Right) ==> r.x == obj.x + info.penetration.x && r.y == obj.y
    ensures info.side == Some(Bottom) ==> r.y == obj.y + info.penetration.y && r.x == obj.x
  {
    match info.side
    case None => obj
    case Some(Left) => obj.(x := obj.x - info.penetration.x, velocity := ZeroVelocityX(obj.velocity))
    case Some(Right) => obj.(x := obj.x + info.penetration.x, velocity := ZeroVelocityX(obj.velocity))
    case Some(Top) => obj.(y := obj.y - info.penetration.y, velocity := ZeroVelocityY(obj.velocity))
    case Some(Bottom) => obj.(y := obj.y + info.penetration.y, velocity := ZeroVelocityY(obj.velocity))
  }

  /**
   * Two 10×10 squares side by side with a 5-unit overlap: the `Right`
   * branch moves the first one onto the second, so a re-query still reports
   * a collision, with a deeper horizontal overlap.
   */
  lemma ResolveRightDeepens()
    ensures var r1 := Rect(0.0, 0.0, 10.0, 10.0);
            var r2 := Rect(5.0, 0.0, 10.0, 10.0);
            var info := CheckCollision(r1, r2);
            var moved := ResolveRectCollisionAsWritten(Movable(r1.x, r1.y, None), info);
            var again := CheckCollision(Rect(moved.x, moved.y, r1.width, r1.height), r2);
            && info.side == Some(Right)
            && again.collided
            && Helpers.Abs(again.penetration.x) > Helpers.Abs(info.penetration.x)
  {
    var r1 := Rect(0.0, 0.0, 10.0, 10.0);
    var r2 := Rect(5.0, 0.0, 10.0, 10.0);
    var info := CheckCollision(r1, r2);
    assert CalculateOverlap(0.0, 10.0, 5.0, 10.0) == 5.0;
    assert CalculateOverlap(0.0, 10.0, 0.0, 10.0) == -10.0;
    assert info == RectCollision(true, Some(Right), Vector2.Vec(5.0, -10.0));
    var moved := ResolveRectCollisionAsWritten(Movable(0.0, 0.0, None), info);
    assert moved == Movable(5.0, 0.0, None);
    assert CalculateOverlap(5.0, 10.0, 5.0, 10.0) == -10.0;
    assert CheckCollision(Rect(5.0, 0.0, 10.0, 10.0), r2).penetration.x == -10.0;
  }

  /**
   * Corrected resolver: every branch subtracts the signed penetration, so
   * the object always moves away from the other one. The velocity
   * component along the resolved axis becomes 0 when there is a velocity.
   */
  function ResolveRectCollision(obj: Movable, info: RectCollision): (r: Movable)
    ensures info.side == None ==> r == obj
    ensures info.side == Some(Left) || info.side == Some(Right) ==>
              r.x == obj.x - info.penetration.x && r.y == obj.y && r.velocity == ZeroVelocityX(obj.velocity)
    ensures info.side == Some(Top) || info.side == Some(Bottom) ==>
              r.y == obj.y - info.penetration.y && r.x == obj.x && r.velocity == ZeroVelocityY(obj.velocity)
  {
    match info.side
    case None => obj
    case Some(Left) => obj.(x := obj.x - info.penetration.x, velocity := ZeroVelocityX(obj.velocity))
    case Some(Right) => obj.(x := obj.x - info.penetration.x, velocity := ZeroVelocityX(obj.velocity))
    case Some(Top) => obj.(y := obj.y - info.penetration.y, velocity := ZeroVelocityY(obj.velocity))
    case Some(Bottom) => obj.(y := obj.y - info.penetration.y, velocity := ZeroVelocityY(obj.velocity))
  }

  /** Moving by the signed overlap leaves the centres exactly the half-extent sum apart. */
  lemma SeparatedAfterShift(pos1: real, size1: real, pos2: real, size2: real)
    requires AxisOverlap(pos1, size1, pos2, size2)
    ensures !AxisOverlap(pos1 - CalculateOverlap(pos1, size1, pos2, size2), size1, pos2, size2)
  {
    AxisOverlapByCentres(pos1, size1, pos2, size2);
    var o := CalculateOverlap(pos1, size1, pos2, size2);
    AxisOverlapByCentres(pos1 - o, size1, pos2, size2);
  }

  /** After the corrected resolver, re-querying the same pair reports no collision. */
  lemma ResolveRectSeparates(r1: Rect, r2: Rect, velocity: Option<Vector2.Vec>)
    ensures var info := CheckCollision(r1, r2);
            var moved := ResolveRectCollision(Movable(r1.x, r1.y, velocity), info);
            !CheckCollision(Rect(moved.x, moved.y, r1.width, r1.height), r2).collided
  {
    var info := CheckCollision(r1, r2);
    if info.collided {
      match info.side.value
      case Left => SeparatedAfterShift(r1.x, r1.width, r2.x, r2.width);
      case Right => SeparatedAfterShift(r1.x, r1.width, r2.x, r2.width);
      case Top => SeparatedAfterShift(r1.y, r1.height, r2.y, r2.height);
      case Bottom => SeparatedAfterShift(r1.y, r1.height, r2.y, r2.height);
    }
  }

  /**
   * `resolveCircleCollision`: both objects move half the penetration apart
   * along the normal; when both have velocities and are not already
   * separating, an impulse with restitution 0.8 is shared equally.
   */
  function ResolveCircleCollision(o1: Movable, o2: Movable, penetration: real, normal: Vector2.Vec): (r: (Movable, Movable))
    ensures r.0.x + r.1.x == o1.x + o2.x && r.0.y + r.1.y == o1.y + o2.y
    ensures r.0.velocity.Some? <==> o1.velocity.Some?
    ensures r.1.velocity.Some? <==> o2.velocity.Some?
    ensures o1.velocity.Some? && o2.velocity.Some? ==>
              Vector2.Add(r.0.velocity.value, r.1.velocity.value) == Vector2.Add(o1.velocity.value, o2.velocity.value)
    ensures o1.velocity.Some? && o2.velocity.Some?
            && Vector2.Dot(Vector2.Subtract(o2.velocity.value, o1.velocity.value), normal) > 0.0 ==>
              r.0.velocity == o1.velocity && r.1.velocity == o2.velocity
    ensures o1.velocity.None? || o2.velocity.None? ==> r.0.velocity == o1.velocity && r.1.velocity == o2.velocity
  {
    var move := penetration / 2.0;
    var p1 := o1.(x := o1.x - normal.x * move, y := o1.y - normal.y * move);
    var p2 := o2.(x := o2.x + normal.x * move, y := o2.y + normal.y * move);
    if o1.velocity.Some? && o2.velocity.Some? then
      var v1 := o1.velocity.value;
      var v2 := o2.velocity.value;
      var alongNormal := Vector2.Dot(Vector2.Subtract(v2, v1), normal);
      if alongNormal > 0.0 then (p1, p2)
      else
        var restitution := 0.8;
        var impulse := -(1.0 + restitution) * alongNormal;
        var share := impulse / 2.0;
        (p1.(velocity := Some(Vector2.Vec(v1.x - normal.x * share, v1.y - normal.y * share))),
         p2.(velocity := Some(Vector2.Vec(v2.x + normal.x * share, v2.y + normal.y * share))))
    else (p1, p2)
  }

  /**
   * With a unit normal, an approaching pair leaves with its relative
   * velocity along the normal reversed and scaled by the restitution 0.8.
   */
  lemma CircleImpulseRestitution(o1: Movable, o2: Movable, penetration: real, normal: Vector2.Vec)
    requires o1.velocity.Some? && o2.velocity.Some?
    requires Vector2.LengthSquared(normal) == 1.0
    requires Vector2.Dot(Vector2.Subtract(o2.velocity.value, o1.velocity.value), normal) <= 0.0
    ensures var r := ResolveCircleCollision(o1, o2, penetration, normal);
            Vector2.Dot(Vector2.Subtract(r.1.velocity.value, r.0.velocity.value), normal)
            == -0.8 * Vector2.Dot(Vector2.Subtract(o2.velocity.value, o1.velocity.value), normal)
  {
    var v1 := o1.velocity.value;
    var v2 := o2.velocity.value;
    var vn := Vector2.Dot(Vector2.Subtract(v2, v1), normal);
    var share := -(1.8) * vn / 2.0;
    var r := ResolveCircleCollision(o1, o2, penetration, normal);
    var rel := Vector2.Subtract(r.1.velocity.value, r.0.velocity.value);
    assert rel == Vector2.Vec((v2.x - v1.x) + 2.0 * share * normal.x, (v2.y - v1.y) + 2.0 * share * normal.y);
    DotShift(Vector2.Subtract(v2, v1), normal, 2.0 * share);
  }

  lemma DotShift(a: Vector2.Vec, n: Vector2.Vec, s: real)
    requires Vector2.LengthSquared(n) == 1.0
    ensures Vector2.Dot(Vector2.Vec(a.x + s * n.x, a.y + s * n.y), n) == Vector2.Dot(a, n) + s
  {
    assert Vector2.Dot(Vector2.Vec(a.x + s * n.x, a.y + s * n.y), n)
        == Vector2.Dot(a, n) + s * (n.x * n.x + n.y * n.y);
  }
}

/**
 * js/entities/Coin.js: a coin's life cycle, active → collected →
 * removable, with its bobbing, rotation and sparkle timers.
 *
 * `Math.sin` is a parameter bounded by [-1, 1]; the particles that
 * `createSparkle` and `createCollectionParticles` spawn at random are
 * passed in, since only their later decay matters here.
 */
module Coin {
  import opened Shapes
  import Helpers

  const Radius: real := 16.0
  const Value: int := 10
  const BobSpeed: real := 0.05
  const BobAmount: real := 5.0
  const AnimationSpeed: real := 0.1
  const SparkleInterval: real := 500.0
  /** How long, in milliseconds, a collected coin lingers before it may be removed. */
  const RemovalDelay: real := 1000.0

  datatype Coin = Coin(
    x: real, y: real,
    isCollected: bool,
    collectionTime: real,
    rotation: real,
    bobOffset: real,
    animationTimer: real,
    sparkleTimer: real,
    particles: seq<Helpers.Particle>)

  /** `sin` stays within [-1, 1]. */
  ghost predicate SinSpec(sin: real -> real) {
    forall a: real :: -1.0 <= sin(a) <= 1.0
  }

  /** The constructor: an uncollected coin at rest. */
  function Create(x: real, y: real): (c: Coin)
    ensures c.x == x && c.y == y && !c.isCollected && c.particles == []
    ensures c.rotation == 0.0 && c.sparkleTimer == 0.0 && c.bobOffset == 0.0
  {
    Coin(x, y, false, 0.0, 0.0, 0.0, 0.0, 0.0, [])
  }

  /**
   * `update`. A collected coin only ages and lets its particles decay. An
   * active coin advances its animation: the rotation grows by
   * `AnimationSpeed * deltaTime * 100` and wraps once at 360, the bob
   * follows the sine of the animation clock, and every `SparkleInterval`
   * the sparkle timer restarts and `sparkle` is appended.
   */
  function Update(c: Coin, deltaTime: real, sin: real -> real, sparkle: seq<Helpers.Particle>): (r: Coin)
    requires SinSpec(sin)
    ensures c.isCollected ==>
              r == c.(collectionTime := c.collectionTime + deltaTime,
                      particles := Helpers.Survivors(c.particles, deltaTime))
    ensures !c.isCollected ==>
              && !r.isCollected
              && r.sparkleTimer < SparkleInterval
              && -BobAmount <= r.bobOffset <= BobAmount
              && r.animationTimer == c.animationTimer + deltaTime
              && r.collectionTime == c.collectionTime
    ensures !c.isCollected && c.sparkleTimer + deltaTime >= SparkleInterval ==>
              r.particles == c.particles + sparkle && r.sparkleTimer == 0.0
    ensures !c.isCollected && c.sparkleTimer + deltaTime < SparkleInterval ==>
              r.particles == c.particles && r.sparkleTimer == c.sparkleTimer + deltaTime
    ensures r.x == c.x && r.y == c.y && r.isCollected == c.isCollected
  {
    if c.isCollected then
      c.(collectionTime := c.collectionTime + deltaTime, particles := Helpers.Survivors(c.particles, deltaTime))
    else
      var timer := c.animationTimer + deltaTime;
      var rotation := c.rotation + AnimationSpeed * deltaTime * 100.0;
      var bob := sin(timer * BobSpeed) * BobAmount;
      var sparkleTimer := c.sparkleTimer + deltaTime;
      var sparkled := sparkleTimer >= SparkleInterval;
      c.(animationTimer := timer,
         rotation := if rotation >= 360.0 then rotation - 360.0 else rotation,
         bobOffset := bob,
         sparkleTimer := if sparkled then 0.0 else sparkleTimer,
         particles := if sparkled then c.particles + sparkle else c.particles)
  }

  /**
   * The rotation stays in [0, 360) when it starts there and one tick turns
   * the coin by less than a full circle.
   */
  lemma RotationInRange(c: Coin, deltaTime: real, sin: real -> real, sparkle: seq<Helpers.Particle>)
    requires SinSpec(sin)
    requires !c.isCollected
    requires 0.0 <= c.rotation < 360.0
    requires 0.0 <= AnimationSpeed * deltaTime * 100.0 < 360.0
    ensures 0.0 <= Update(c, deltaTime, sin, sparkle).rotation < 360.0
  {
  }

  /**
   * `collect`: the first call marks the coin collected, restarts its
   * collection clock, adds the burst particles and returns the coin's
   * value; later calls return 0 and change nothing.
   */
  function Collect(c: Coin, burst: seq<Helpers.Particle>): (r: (Coin, int))
    ensures c.isCollected ==> r == (c, 0)
    ensures !c.isCollected ==>
              r.1 == Value && r.0.isCollected && r.0.collectionTime == 0.0 && r.0.particles == c.particles + burst
    ensures r.0.isCollected && r.0.x == c.x && r.0.y == c.y
  {
    if c.isCollected then (c, 0)
    else (c.(isCollected := true, collectionTime := 0.0, particles := c.particles + burst), Value)
  }

  /** Collecting twice pays once. */
  lemma CollectPaysOnce(c: Coin, b1: seq<Helpers.Particle>, b2: seq<Helpers.Particle>)
    requires !c.isCollected
    ensures var first := Collect(c, b1);
            first.1 == Value && Collect(first.0, b2) == (first.0, 0)
  {
  }

  /** A collected coin stays collected through updates. */
  lemma CollectedIsPermanent(c: Coin, deltaTime: real, sin: real -> real, sparkle: seq<Helpers.Particle>)
    requires SinSpec(sin)
    requires c.isCollected
    ensures Update(c, deltaTime, sin, sparkle).isCollected
    ensures Collect(c, sparkle).0 == c
  {
  }

  /**
   * `shouldRemove`: only a collected coin leaves the level, and only once
   * its sparkle has burnt out and more than a second has passed.
   */
  function ShouldRemove(c: Coin): (b: bool)
    ensures b ==> c.isCollected
    ensures b ==> c.particles == [] && c.collectionTime > RemovalDelay
  {
    c.isCollected && c.collectionTime > RemovalDelay && |c.particles| == 0
  }

  /** An uncollected coin is never removable, whatever happens in a tick. */
  lemma ActiveNeverRemoved(c: Coin, deltaTime: real, sin: real -> real, sparkle: seq<Helpers.Particle>)
    requires SinSpec(sin)
    requires !c.isCollected
    ensures !ShouldRemove(c) && !ShouldRemove(Update(c, deltaTime, sin, sparkle))
  {
  }

  /**
   * `getCollisionCircle`: centred on the coin shifted by the bob, with
   * the coin's radius; after any active update the centre is within
   * `BobAmount` of the resting position.
   */
  function GetCollisionCircle(c: Coin): (k: Circle)
    ensures k.x == c.x && k.y - c.y == c.bobOffset && k.radius == Radius
  {
    Circle(c.x, c.y + c.bobOffset, Radius)
  }

  lemma CollisionCircleNearRest(c: Coin, deltaTime: real, sin: real -> real, sparkle: seq<Helpers.Particle>)
    requires SinSpec(sin)
    requires !c.isCollected
    ensures var k := GetCollisionCircle(Update(c, deltaTime, sin, sparkle));
            c.y - BobAmount <= k.y <= c.y + BobAmount
  {
  }
}

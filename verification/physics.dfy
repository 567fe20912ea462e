/**
 * js/PhysicsEngine.js: the generic integrator and boundary clamp, and the
 * player-versus-platform pass that the game runs every tick (resolution,
 * platform effects and the landing trigger), plus the ground probe.
 *
 * `Math.pow(factor, deltaTime)` is passed in as a decay in (0, 1]. The
 * particle effects of `createJumpEffect` and `createLandingEffect`, the
 * debug points and `drawDebug` are not modelled; `handleLanding` is
 * reduced to whether it would reset the combo.
 */
module PhysicsEngine {
  import opened Shapes
  import opened Wrappers
  import CollisionSystem
  import Player
  import Platform
  import InputHandler
  import Helpers

  const Gravity: real := 0.5
  const AirFriction: real := 0.98
  const GroundFriction: real := 0.85
  const MaxFallSpeed: real := 20.0
  /** The fall speed above which `handleLanding` resets the combo. */
  const HardLandingSpeed: real := 10.0
  /** Height of the strip under the feet that `checkGround` probes. */
  const FeetDepth: real := 2.0

  // ---------------------------------------------------------------------
  // updateEntity and checkBoundaries: the generic entity helpers.
  // ---------------------------------------------------------------------

  /** Any entity with a position, a velocity, a width and a ground flag. */
  datatype Body = Body(x: real, y: real, vx: real, vy: real, width: real, isOnGround: bool)

  /** A decay `Math.pow(factor, dt)` for a factor in (0, 1] and `dt >= 0`. */
  predicate IsDecay(d: real) {
    0.0 < d <= 1.0
  }

  /** Scaling by a decay never increases a magnitude, and keeps the sign. */
  lemma DecayShrinks(v: real, d: real, r: real)
    requires IsDecay(d) && r == v * d
    ensures Helpers.Abs(r) <= Helpers.Abs(v)
    ensures (v < 0.0 <==> r < 0.0) && (v > 0.0 <==> r > 0.0)
  {
    if v < 0.0 {
      Helpers.ProductAtMost(-v, d);
      Helpers.ProductPositive(-v, d, -r);
    } else if v > 0.0 {
      Helpers.ProductAtMost(v, d);
      Helpers.ProductPositive(v, d, r);
    }
  }

  /**
   * `updateEntity`: in the air, gravity scaled by `deltaTime` is added to
   * the fall speed, which is capped; the horizontal speed always decays by
   * the air factor and, on the ground, also by the ground factor, snapping
   * a crawl below 0.1 to rest. The position then moves by velocity times
   * `deltaTime`.
   */
  function UpdateEntity(b: Body, deltaTime: real, airDecay: real, groundDecay: real): (r: Body)
    requires IsDecay(airDecay) && IsDecay(groundDecay)
    ensures !b.isOnGround ==> r.vy <= MaxFallSpeed
    ensures !b.isOnGround && b.vy + Gravity * deltaTime <= MaxFallSpeed ==> r.vy == b.vy + Gravity * deltaTime
    ensures b.isOnGround ==> r.vy == b.vy
    ensures b.isOnGround ==> r.vx == 0.0 || Helpers.Abs(r.vx) >= 0.1
    ensures !b.isOnGround ==> r.vx == b.vx * airDecay
    ensures Helpers.Abs(r.vx) <= Helpers.Abs(b.vx) && (r.vx > 0.0 ==> b.vx > 0.0) && (r.vx < 0.0 ==> b.vx < 0.0)
    ensures r.x - b.x == r.vx * deltaTime && r.y - b.y == r.vy * deltaTime
    ensures r.isOnGround == b.isOnGround && r.width == b.width
  {
    var vy := FallenVy(b.vy, b.isOnGround, deltaTime);
    var vx := DampedVx(b.vx, b.isOnGround, airDecay, groundDecay);
    b.(vx := vx, vy := vy, x := b.x + vx * deltaTime, y := b.y + vy * deltaTime)
  }

  /** Gravity of one update: in the air it pulls down up to the terminal speed; on the ground it does nothing. */
  function FallenVy(vy: real, onGround: bool, deltaTime: real): (r: real)
    ensures !onGround ==> r <= MaxFallSpeed
    ensures !onGround && vy + Gravity * deltaTime <= MaxFallSpeed ==> r == vy + Gravity * deltaTime
    ensures onGround ==> r == vy
  {
    if !onGround then
      var fallen := vy + Gravity * deltaTime;
      if fallen > MaxFallSpeed then MaxFallSpeed else fallen
    else vy
  }

  /**
   * The horizontal damping of one update: air resistance always, then
   * ground friction with a cut-off to 0 below 0.1 on the ground. It never
   * speeds the body up or turns it around.
   */
  function DampedVx(vx: real, onGround: bool, airDecay: real, groundDecay: real): (r: real)
    requires IsDecay(airDecay) && IsDecay(groundDecay)
    ensures onGround ==> r == 0.0 || Helpers.Abs(r) >= 0.1
    ensures !onGround ==> r == vx * airDecay
    ensures Helpers.Abs(r) <= Helpers.Abs(vx) && (r > 0.0 ==> vx > 0.0) && (r < 0.0 ==> vx < 0.0)
  {
    var aired := vx * airDecay;
    DecayShrinks(vx, airDecay, aired);
    if onGround then
      var rubbed := aired * groundDecay;
      DecayShrinks(aired, groundDecay, rubbed);
      if Helpers.Abs(rubbed) < 0.1 then 0.0 else rubbed
    else aired
  }

  /** A body at rest on the ground stays exactly where it is. */
  lemma RestIsStable(b: Body, deltaTime: real, airDecay: real, groundDecay: real)
    requires IsDecay(airDecay) && IsDecay(groundDecay)
    requires b.isOnGround && b.vx == 0.0 && b.vy == 0.0
    ensures UpdateEntity(b, deltaTime, airDecay, groundDecay) == b
  {
  }

  /** Which edges `checkBoundaries` hit, and whether the entity fell out. */
  datatype Boundaries = Boundaries(left: bool, right: bool, top: bool, bottom: bool, outOfBounds: bool)

  /**
   * `checkBoundaries`: pushes the entity back inside the left, right and
   * top edges (in that order), zeroing the matching velocity, and reports
   * a fall below the world without moving it.
   */
  function CheckBoundaries(b: Body, worldWidth: real, worldHeight: real): (r: (Body, Boundaries))
    ensures r.0.y >= 0.0
    ensures b.width <= worldWidth ==> 0.0 <= r.0.x && r.0.x + r.0.width <= worldWidth
    ensures b.width > worldWidth ==> r.0.x < 0.0 && r.1.right
    ensures r.1.left <==> b.x < 0.0
    ensures r.1.top <==> b.y < 0.0
    ensures r.1.outOfBounds <==> r.0.y > worldHeight
    ensures r.1.bottom == r.1.outOfBounds
    ensures b.y >= 0.0 ==> (r.1.outOfBounds <==> b.y > worldHeight)
    ensures r.1.left || r.1.right ==> r.0.vx == 0.0
    ensures r.1.top ==> r.0.vy == 0.0
    ensures !r.1.left && !r.1.right && !r.1.top ==> r.0 == b
    ensures r.0.width == b.width && r.0.isOnGround == b.isOnGround
  {
    var left := b.x < 0.0;
    var b1 := if left then b.(x := 0.0, vx := 0.0) else b;
    var right := b1.x + b1.width > worldWidth;
    var b2 := if right then b1.(x := worldWidth - b1.width, vx := 0.0) else b1;
    var top := b2.y < 0.0;
    var b3 := if top then b2.(y := 0.0, vy := 0.0) else b2;
    var fell := b3.y > worldHeight;
    (b3, Boundaries(left, right, top, fell, fell))
  }

  /** Clamping a second time moves nothing further. */
  lemma CheckBoundariesIdempotent(b: Body, worldWidth: real, worldHeight: real)
    ensures var once := CheckBoundaries(b, worldWidth, worldHeight).0;
            CheckBoundaries(once, worldWidth, worldHeight).0 == once
  {
  }

  // ---------------------------------------------------------------------
  // resolveCollision and handlePlatformEffects.
  // ---------------------------------------------------------------------

  /**
   * `resolveCollision`: places the player flush against the edge the side
   * names and stops it along that axis; `Top` is treated as the player
   * standing on the platform, and only it grounds the player.
   */
  function ResolveCollision(p: Player.Player, plat: Rect, side: Side): (r: Player.Player)
    ensures side == Top ==> r.y + Player.Height == plat.y && r.vy == 0.0 && r.isOnGround && !r.isJumping
    ensures side == Bottom ==> r.y == plat.y + plat.height && r.vy == 0.0
    ensures side == Left ==> r.x + Player.Width == plat.x && r.vx == 0.0
    ensures side == Right ==> r.x == plat.x + plat.width && r.vx == 0.0
    ensures side != Top ==> r.isOnGround == p.isOnGround && r.isJumping == p.isJumping
    ensures side == Top || side == Bottom ==> r.x == p.x && r.vx == p.vx
    ensures side == Left || side == Right ==> r.y == p.y && r.vy == p.vy
    ensures r.lives == p.lives && r.isInvincible == p.isInvincible
  {
    match side
    case Top => p.(y := plat.y - Player.Height, vy := 0.0, isOnGround := true, isJumping := false)
    case Bottom => p.(y := plat.y + plat.height, vy := 0.0)
    case Left => p.(x := plat.x - Player.Width, vx := 0.0)
    case Right => p.(x := plat.x + plat.width, vx := 0.0)
  }

  /** After resolution the player only touches the platform, whatever the side. */
  lemma ResolvedIsFlush(p: Player.Player, plat: Rect, side: Side)
    ensures !CollisionSystem.CheckCollision(Player.GetCollisionRect(ResolveCollision(p, plat, side)), plat).collided
  {
    var q := ResolveCollision(p, plat, side);
    CollisionSystem.EdgeTouchingDoesNotCollide(Player.GetCollisionRect(q), plat);
  }

  /**
   * `handlePlatformEffects`: landing on top of a jump-boost platform
   * launches the player upwards, and landing on top of a breakable one
   * starts its collapse; any other side has no effect.
   */
  function HandlePlatformEffects(p: Player.Player, plat: Platform.Platform, side: Side): (r: (Player.Player, Platform.Platform))
    ensures side != Top ==> r == (p, plat)
    ensures side == Top && Platform.IsJumpBoost(plat) ==>
              r.0 == p.(vy := Platform.JumpBoostForce, isOnGround := false, isJumping := true) && r.1 == plat
    ensures side == Top && !Platform.IsJumpBoost(plat) ==> r.0 == p
    ensures side == Top ==> r.1 == Platform.StartBreaking(plat)
  {
    if side == Top then
      var q := if Platform.IsJumpBoost(plat) then p.(vy := Platform.JumpBoostForce, isOnGround := false, isJumping := true) else p;
      (q, Platform.StartBreaking(plat))
    else (p, plat)
  }

  // ---------------------------------------------------------------------
  // handleCollisions: one pass over the platforms.
  // ---------------------------------------------------------------------

  /**
   * How the side reported by `checkCollision` is fed to the resolver: as
   * written it is passed on unchanged; `Corrected` turns it around so that
   * `Top` means the player is above the platform (see the findings).
   */
  datatype Reading = AsWritten | Corrected

  function SideFor(reading: Reading, side: Side): (s: Side)
    ensures reading == AsWritten ==> s == side
    ensures reading == Corrected ==> s == Opposite(side) && Opposite(s) == side
  {
    OppositeInvolution(side);
    if reading == AsWritten then side else Opposite(side)
  }

  /** A collapsed platform (zero width or height) is skipped. */
  predicate Collapsed(plat: Platform.Platform) {
    plat.width == 0.0 || plat.height == 0.0
  }

  /** One iteration of the loop: test, resolve, apply effects. */
  function Touch(p: Player.Player, plat: Platform.Platform, reading: Reading): (r: (Player.Player, Platform.Platform))
    ensures Collapsed(plat) ==> r == (p, plat)
    ensures r.1 == plat || r.1 == Platform.StartBreaking(plat)
    ensures r.0.isOnGround ==> r.0.vy == 0.0 || (p.isOnGround && r.0.vy == p.vy)
    ensures r.0.lives == p.lives && r.0.isInvincible == p.isInvincible
  {
    if Collapsed(plat) then (p, plat)
    else
      var c := CollisionSystem.CheckCollision(Player.GetCollisionRect(p), Platform.GetCollisionRect(plat));
      if c.collided then
        var side := SideFor(reading, c.side.value);
        var resolved := ResolveCollision(p, Platform.GetCollisionRect(plat), side);
        HandlePlatformEffects(resolved, plat, side)
      else (p, plat)
  }

  /**
   * The `for … of` loop over the platforms, in order, with no early exit:
   * every platform is tested against the player as moved by the earlier
   * ones. A grounded player never keeps a vertical speed.
   */
  function Sweep(p: Player.Player, platforms: seq<Platform.Platform>, reading: Reading): (r: (Player.Player, seq<Platform.Platform>))
    requires p.isOnGround ==> p.vy == 0.0
    ensures r.0.isOnGround ==> r.0.vy == 0.0
    ensures |r.1| == |platforms|
    ensures forall i :: 0 <= i < |platforms| ==> r.1[i] == platforms[i] || r.1[i] == Platform.StartBreaking(platforms[i])
    ensures r.0.lives == p.lives && r.0.isInvincible == p.isInvincible
    decreases |platforms|
  {
    if |platforms| == 0 then (p, [])
    else
      var first := Touch(p, platforms[0], reading);
      var rest := Sweep(first.0, platforms[1..], reading);
      (rest.0, [first.1] + rest.1)
  }

  /** Collapsed platforms are passed over: they leave the player as it is. */
  lemma SweepSkipsCollapsed(p: Player.Player, platforms: seq<Platform.Platform>, reading: Reading)
    requires p.isOnGround ==> p.vy == 0.0
    requires forall i :: 0 <= i < |platforms| ==> Collapsed(platforms[i])
    ensures Sweep(p, platforms, reading) == (p, platforms)
    decreases |platforms|
  {
    if |platforms| > 0 {
      SweepSkipsCollapsed(p, platforms[1..], reading);
      assert [platforms[0]] + platforms[1..] == platforms;
    }
  }

  /** The outcome of `handleCollisions`: the moved player, the platforms, and the landing trigger. */
  datatype Contact = Contact(player: Player.Player, platforms: seq<Platform.Platform>, landed: bool, resetsCombo: bool)

  /**
   * `handleCollisions`: the ground flag is cleared, every platform is
   * swept, and the landing effect fires when the player was not grounded
   * before and is now. `handleLanding` would reset the combo for a fall
   * faster than `HardLandingSpeed`; that can never happen, because every
   * grounding also zeroes the fall speed (so the `player.game` it would
   * reach through, which is never set, is never read).
   */
  function HandleCollisions(p: Player.Player, platforms: seq<Platform.Platform>, reading: Reading): (r: Contact)
    ensures r.landed <==> !p.isOnGround && r.player.isOnGround
    ensures !r.resetsCombo
    ensures |r.platforms| == |platforms|
    ensures forall i :: 0 <= i < |platforms| ==> r.platforms[i] == platforms[i] || r.platforms[i] == Platform.StartBreaking(platforms[i])
    ensures r.player.lives == p.lives && r.player.isInvincible == p.isInvincible
  {
    var wasOnGround := p.isOnGround;
    var swept := Sweep(p.(isOnGround := false), platforms, reading);
    var landed := !wasOnGround && swept.0.isOnGround;
    Contact(swept.0, swept.1, landed, landed && swept.0.vy > HardLandingSpeed)
  }

  /**
   * `Player.update` always leaves the ground flag cleared, so in the game's
   * tick the landing effect fires exactly when the sweep grounds the
   * player: on every supported tick rather than once per touchdown.
   */
  lemma LandingFiresWheneverGrounded(p: Player.Player, deltaTime: real, input: InputHandler.Input,
                                     platforms: seq<Platform.Platform>, reading: Reading)
    ensures var moved := Player.Update(p, deltaTime, input);
            var contact := HandleCollisions(moved, platforms, reading);
            contact.landed <==> contact.player.isOnGround
  {
  }

  // ---------------------------------------------------------------------
  // The side a falling player is given.
  // ---------------------------------------------------------------------

  /**
   * `checkCollision` labels the side from the second rectangle's point of
   * view: with the player first, a player whose centre is above the
   * platform's is reported as `Bottom`, and one below as `Top`.
   */
  lemma BottomMeansAbove(p: Player.Player, plat: Rect)
    ensures var c := CollisionSystem.CheckCollision(Player.GetCollisionRect(p), plat);
            c.side == Some(Bottom) ==> p.y + Player.Height / 2.0 < plat.y + plat.height / 2.0
    ensures var c := CollisionSystem.CheckCollision(Player.GetCollisionRect(p), plat);
            c.side == Some(Top) ==> p.y + Player.Height / 2.0 >= plat.y + plat.height / 2.0
  {
  }

  /**
   * As written, a player landing on a platform from above is put
   * underneath it instead: a player at (100, 400) whose feet sink 14 pixels
   * into a 200 × 32 platform at (50, 450) is labelled `Bottom`, moved to
   * y = 482 below the platform and left airborne.
   */
  lemma LandingPushesThrough()
    ensures var p := Player.Create(100.0, 400.0).(vy := 5.0);
            var plat := Platform.Create(50.0, 450.0, 200.0, 32.0, "normal");
            var c := CollisionSystem.CheckCollision(Player.GetCollisionRect(p), Platform.GetCollisionRect(plat));
            var contact := HandleCollisions(p, [plat], AsWritten);
            && c.collided && c.side == Some(Bottom) && c.penetration.y == 14.0
            && contact.player.y == 482.0 && !contact.player.isOnGround && !contact.landed
  {
    var p := Player.Create(100.0, 400.0).(vy := 5.0);
    var plat := Platform.Create(50.0, 450.0, 200.0, 32.0, "normal");
    var c := CollisionSystem.CheckCollision(Player.GetCollisionRect(p), Platform.GetCollisionRect(plat));
    assert CollisionSystem.CalculateOverlap(100.0, 32.0, 50.0, 200.0) == 82.0;
    assert CollisionSystem.CalculateOverlap(400.0, 64.0, 450.0, 32.0) == 14.0;
    assert c.side == Some(Bottom);
  }

  /** Read the other way round, the same contact stands the player on top and grounds it. */
  lemma LandingCorrected()
    ensures var p := Player.Create(100.0, 400.0).(vy := 5.0);
            var plat := Platform.Create(50.0, 450.0, 200.0, 32.0, "normal");
            var contact := HandleCollisions(p, [plat], Corrected);
            contact.player.y == 386.0 && contact.player.isOnGround && contact.player.vy == 0.0 && contact.landed
  {
    var p := Player.Create(100.0, 400.0).(vy := 5.0);
    var plat := Platform.Create(50.0, 450.0, 200.0, 32.0, "normal");
    var c := CollisionSystem.CheckCollision(Player.GetCollisionRect(p), Platform.GetCollisionRect(plat));
    assert CollisionSystem.CalculateOverlap(100.0, 32.0, 50.0, 200.0) == 82.0;
    assert CollisionSystem.CalculateOverlap(400.0, 64.0, 450.0, 32.0) == 14.0;
    assert c.side == Some(Bottom);
  }

  /**
   * With the corrected reading the resolver moves the player by exactly
   * the reported penetration, against it: the smallest move that separates
   * the two boxes, the same one `CollisionSystem.ResolveRectCollision`
   * makes.
   */
  lemma CorrectedMovesByPenetration(p: Player.Player, plat: Rect)
    requires CollisionSystem.CheckCollision(Player.GetCollisionRect(p), plat).collided
    ensures var c := CollisionSystem.CheckCollision(Player.GetCollisionRect(p), plat);
            var q := ResolveCollision(p, plat, SideFor(Corrected, c.side.value));
            && (c.side == Some(Top) || c.side == Some(Bottom) ==> q.y - p.y == -c.penetration.y && q.x == p.x)
            && (c.side == Some(Left) || c.side == Some(Right) ==> q.x - p.x == -c.penetration.x && q.y == p.y)
  {
  }

  /**
   * As written, a vertical contact moves the player further than the
   * penetration, to the far side of the platform: its centre ends on the
   * other side of the platform's centre from where it started.
   */
  lemma AsWrittenCrossesCentre(p: Player.Player, plat: Rect)
    requires plat.height > 0.0
    requires CollisionSystem.CheckCollision(Player.GetCollisionRect(p), plat).collided
    ensures var c := CollisionSystem.CheckCollision(Player.GetCollisionRect(p), plat);
            var q := ResolveCollision(p, plat, SideFor(AsWritten, c.side.value));
            var centre := plat.y + plat.height / 2.0;
            && (c.side == Some(Bottom) ==> p.y + Player.Height / 2.0 < centre < q.y + Player.Height / 2.0)
            && (c.side == Some(Top) ==> q.y + Player.Height / 2.0 < centre <= p.y + Player.Height / 2.0)
  {
  }

  // ---------------------------------------------------------------------
  // checkGround.
  // ---------------------------------------------------------------------

  /** The two-pixel strip under the player's feet. */
  function FeetStrip(p: Player.Player): (r: Rect)
    ensures r.x == p.x && r.y == p.y + Player.Height && r.width == Player.Width && r.height == FeetDepth
  {
    Rect(p.x, p.y + Player.Height, Player.Width, FeetDepth)
  }

  /**
   * `checkGround` as written: the loop returns at the first platform that
   * is not collapsed, because the collision record it tests is an object
   * and so always truthy. The answer never depends on where the player is.
   */
  method CheckGroundAsWritten(p: Player.Player, platforms: seq<Platform.Platform>) returns (grounded: bool)
    ensures grounded <==> exists i :: 0 <= i < |platforms| && !Collapsed(platforms[i])
  {
    for i := 0 to |platforms|
      invariant forall j :: 0 <= j < i ==> Collapsed(platforms[j])
    {
      if Collapsed(platforms[i]) {
        continue;
      }
      var record := CollisionSystem.CheckCollision(FeetStrip(p), Platform.GetCollisionRect(platforms[i]));
      // Any record is truthy, whatever `record.collided` says.
      return true;
    }
    return false;
  }

  /** A player far above the only platform is still reported as grounded. */
  method GroundedInMidAir() returns (grounded: bool, touching: bool)
    ensures grounded && !touching
  {
    var p := Player.Create(0.0, 0.0);
    var plat := Platform.Create(500.0, 900.0, 128.0, 32.0, "normal");
    grounded := CheckGroundAsWritten(p, [plat]);
    assert !Collapsed([plat][0]);
    touching := CollisionSystem.CheckCollision(FeetStrip(p), Platform.GetCollisionRect(plat)).collided;
  }

  /** The probe the code evidently meant: some standing platform overlaps the strip under the feet. */
  predicate StandingOn(p: Player.Player, plat: Platform.Platform) {
    !Collapsed(plat) && CollisionSystem.CheckCollision(FeetStrip(p), Platform.GetCollisionRect(plat)).collided
  }

  method CheckGround(p: Player.Player, platforms: seq<Platform.Platform>) returns (grounded: bool)
    ensures grounded <==> exists i :: 0 <= i < |platforms| && StandingOn(p, platforms[i])
  {
    for i := 0 to |platforms|
      invariant forall j :: 0 <= j < i ==> !StandingOn(p, platforms[j])
    {
      if Collapsed(platforms[i]) {
        continue;
      }
      if CollisionSystem.CheckCollision(FeetStrip(p), Platform.GetCollisionRect(platforms[i])).collided {
        return true;
      }
    }
    return false;
  }
}

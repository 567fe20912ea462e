/**
 * js/entities/Player.js: the player's movement state, lives and
 * invincibility, input handling and per-tick gravity.
 *
 * Animation state, particles, sounds and drawing are not modelled; the
 * width, height, speed, jump force, gravity and maximum fall speed are the
 * constants the constructor copies from js/utils/Constants.js and never
 * changes.
 */
module Player {
  import opened Shapes
  import InputHandler
  import Helpers

  const Width: real := 32.0
  const Height: real := 64.0
  const Speed: real := 5.0
  const JumpForce: real := -15.0
  const Gravity: real := 0.5
  const MaxFallSpeed: real := 20.0
  const Friction: real := 0.85
  const MaxHealth: int := 3
  const InvincibilityTime: real := 1000.0
  /** The lowest `y` (highest point on screen) `update` lets the player reach. */
  const MinY: real := -100.0

  datatype Player = Player(
    x: real, y: real,
    vx: real, vy: real,
    isOnGround: bool,
    isJumping: bool,
    isFacingRight: bool,
    isInvincible: bool,
    invincibilityTimer: real,
    lives: int)

  /** The constructor: at rest at (x, y), facing right, with full lives. */
  function Create(x: real, y: real): (p: Player)
    ensures p.x == x && p.y == y && p.vx == 0.0 && p.vy == 0.0
    ensures p.lives == MaxHealth && IsAlive(p)
    ensures !p.isOnGround && !p.isJumping && p.isFacingRight && !p.isInvincible
  {
    Player(x, y, 0.0, 0.0, false, false, true, false, 0.0, MaxHealth)
  }

  /** `isAlive`: some lives remain; a player at full health is alive. */
  function IsAlive(p: Player): (b: bool)
    ensures b ==> p.lives >= 1
    ensures p.lives == MaxHealth ==> b
  {
    p.lives > 0
  }

  /** `jump`: launches upwards and leaves the ground. */
  function Jump(p: Player): (r: Player)
    ensures r.vy == JumpForce && r.vy < 0.0
    ensures !r.isOnGround && r.isJumping
    ensures r.(vy := p.vy, isOnGround := p.isOnGround, isJumping := p.isJumping) == p
  {
    p.(vy := JumpForce, isOnGround := false, isJumping := true)
  }

  /**
   * `handleInput`: a horizontal direction sets the speed and the facing;
   * no direction applies friction and snaps a crawl below 0.1 to rest.
   * A jump happens only when jump is pressed while on the ground.
   */
  function HandleInput(p: Player, input: InputHandler.Input): (r: Player)
    ensures var h := InputHandler.GetHorizontalInput(input);
            && (h != 0 ==> r.vx == (h as real) * Speed && r.isFacingRight == (h > 0))
            && (h == 0 ==> r.isFacingRight == p.isFacingRight
                           && (r.vx == 0.0 || r.vx == p.vx * Friction)
                           && (Helpers.Abs(p.vx * Friction) < 0.1 <==> r.vx == 0.0))
    ensures InputHandler.IsJumpPressed(input) && p.isOnGround ==>
              r.vy == JumpForce && !r.isOnGround && r.isJumping
    ensures !(InputHandler.IsJumpPressed(input) && p.isOnGround) ==>
              r.vy == p.vy && r.isOnGround == p.isOnGround && r.isJumping == p.isJumping
    ensures r.x == p.x && r.y == p.y && r.lives == p.lives
    ensures r.isInvincible == p.isInvincible && r.invincibilityTimer == p.invincibilityTimer
  {
    var h := InputHandler.GetHorizontalInput(input);
    var moved :=
      if h != 0 then p.(vx := (h as real) * Speed, isFacingRight := h > 0)
      else
        var slowed := p.vx * Friction;
        p.(vx := if Helpers.Abs(slowed) < 0.1 then 0.0 else slowed);
    if InputHandler.IsJumpPressed(input) && moved.isOnGround then Jump(moved) else moved
  }

  /**
   * `applyPhysics`: in the air, gravity is added once per tick (not scaled
   * by `deltaTime`) and the fall speed is capped; on the ground the
   * vertical speed is zeroed. The position then moves by velocity times
   * `deltaTime`, and the player always leaves with `isOnGround` false.
   */
  function ApplyPhysics(p: Player, deltaTime: real): (r: Player)
    ensures !p.isOnGround ==> r.vy <= MaxFallSpeed && (r.vy == p.vy + Gravity || r.vy == MaxFallSpeed)
    ensures !p.isOnGround && p.vy + Gravity <= MaxFallSpeed ==> r.vy == p.vy + Gravity
    ensures p.isOnGround ==> r.vy == 0.0
    ensures r.x - p.x == p.vx * deltaTime && r.y - p.y == r.vy * deltaTime
    ensures !r.isOnGround
    ensures r.vx == p.vx && r.lives == p.lives && r.isJumping == p.isJumping
    ensures r.isInvincible == p.isInvincible && r.invincibilityTimer == p.invincibilityTimer
    ensures r.isFacingRight == p.isFacingRight
  {
    var vy := if !p.isOnGround then (if p.vy + Gravity < MaxFallSpeed then p.vy + Gravity else MaxFallSpeed) else 0.0;
    p.(vy := vy, x := p.x + p.vx * deltaTime, y := p.y + vy * deltaTime, isOnGround := false)
  }

  /** The invincibility timer counts down while invincible and the flag drops once it reaches 0. */
  function TickInvincibility(p: Player, deltaTime: real): (r: Player)
    ensures !p.isInvincible ==> r == p
    ensures p.isInvincible ==>
              r.invincibilityTimer == p.invincibilityTimer - deltaTime
              && (r.isInvincible <==> r.invincibilityTimer > 0.0)
    ensures r.(isInvincible := p.isInvincible, invincibilityTimer := p.invincibilityTimer) == p
  {
    if p.isInvincible then
      var t := p.invincibilityTimer - deltaTime;
      p.(invincibilityTimer := t, isInvincible := !(t <= 0.0))
    else p
  }

  /**
   * `update`: timers, then input, then physics, then the clamp at the
   * minimum height, which also stops upward motion.
   */
  function Update(p: Player, deltaTime: real, input: InputHandler.Input): (r: Player)
    ensures r.y >= MinY
    ensures !r.isOnGround
    ensures r.lives == p.lives
    ensures r.isInvincible ==> p.isInvincible
    ensures p.isInvincible && p.invincibilityTimer <= deltaTime ==> !r.isInvincible
    ensures p.isInvincible && p.invincibilityTimer > deltaTime ==>
              r.isInvincible && r.invincibilityTimer == p.invincibilityTimer - deltaTime
  {
    var timed := TickInvincibility(p, deltaTime);
    var steered := HandleInput(timed, input);
    var moved := ApplyPhysics(steered, deltaTime);
    if moved.y < MinY then moved.(y := MinY, vy := 0.0) else moved
  }

  /**
   * `takeDamage`: ignored while invincible; otherwise lives drop by
   * `damage`, invincibility starts for `InvincibilityTime`, and the result
   * says whether the player died.
   */
  function TakeDamage(p: Player, damage: int): (r: (Player, bool))
    ensures p.isInvincible ==> r == (p, false)
    ensures !p.isInvincible ==>
              && r.0 == p.(lives := p.lives - damage, isInvincible := true, invincibilityTimer := InvincibilityTime)
              && (r.1 <==> !IsAlive(r.0))
  {
    if p.isInvincible then (p, false)
    else
      var hurt := p.(lives := p.lives - damage, isInvincible := true, invincibilityTimer := InvincibilityTime);
      (hurt, hurt.lives <= 0)
  }

  /** A second hit right after a first one is absorbed by the invincibility it started. */
  lemma DamageWindow(p: Player, d1: int, d2: int)
    requires !p.isInvincible
    ensures var first := TakeDamage(p, d1).0;
            TakeDamage(first, d2) == (first, false) && first.lives == p.lives - d1
  {
  }

  /** Once the invincibility time has fully elapsed, damage lands again. */
  lemma DamageAfterWindow(p: Player, d: int, deltaTime: real, input: InputHandler.Input)
    requires !p.isInvincible
    requires deltaTime >= InvincibilityTime
    ensures var hit := TakeDamage(p, 1).0;
            var later := Update(hit, deltaTime, input);
            TakeDamage(later, d).0.lives == p.lives - 1 - d
  {
  }

  /**
   * `reset`: back to rest at (x, y) with full lives, on no ground and not
   * invincible; the facing direction is kept.
   */
  function Reset(p: Player, x: real, y: real): (r: Player)
    ensures r == Create(x, y).(isFacingRight := p.isFacingRight)
    ensures r.lives == MaxHealth && IsAlive(r)
  {
    Player(x, y, 0.0, 0.0, false, false, p.isFacingRight, false, 0.0, MaxHealth)
  }

  /** `getCollisionRect`: the player's current box. */
  function GetCollisionRect(p: Player): (r: Rect)
    ensures r.x == p.x && r.y == p.y && r.width == Width && r.height == Height
    ensures r.width > 0.0 && r.height > 0.0
  {
    Rect(p.x, p.y, Width, Height)
  }

  /**
   * One airborne tick at the default time step moves a falling player by up
   * to `MaxFallSpeed * deltaTime`, about 333 pixels, more than a player
   * and a platform are tall together (96): a player 36 pixels above a
   * platform is 200 pixels below it after one tick, and overlaps it in
   * neither state.
   */
  lemma TunnelsThroughPlatform()
    ensures var platform := Rect(0.0, 500.0, 128.0, 32.0);
            var before := Create(0.0, 400.0).(vy := MaxFallSpeed);
            var after := ApplyPhysics(before, 1000.0 / 60.0);
            && before.y + Height < platform.y
            && after.y > platform.y + platform.height
            && !(before.y < platform.y + platform.height && before.y + Height > platform.y)
            && !(after.y < platform.y + platform.height && after.y + Height > platform.y)
  {
  }
}

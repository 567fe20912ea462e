/**
 * js/Game.js: the screen-state machine and the per-tick order of
 * `updatePlaying`, composed from the entity, physics, score and level
 * modules.
 *
 * Camera, UI screens, sounds, settings and enemies are not modelled; the
 * random and transcendental inputs of one tick (sine, square root, the
 * breaking jitter, spawned particles) arrive in an `Effects` record; a
 * thrown error ends the call where it is thrown, and `async` calls run to
 * completion in order.
 *
 * Three defects of the code as written are switched by `Reading`: as
 * written, the one-shot input flags are cleared before the player reads
 * them, a respawn restores full lives, and the collision sides are read
 * from the platform's point of view. `Corrected` fixes all three.
 */
module Game {
  import opened Wrappers
  import opened PhysicsEngine
  import Helpers
  import Vector2
  import InputHandler
  import Player
  import Platform
  import Coin
  import CollisionSystem
  import ScoreManager
  import LevelManager
  import GameLoop

  /** `GAME_STATES`; `Lost` is `'gameOver'` and `Won` is `'victory'`. */
  datatype State = Menu | Playing | Paused | Lost | Won | LevelComplete

  /** The invincibility a respawned player gets, in milliseconds. */
  const RespawnInvincibility: real := 2000.0
  /** How far below the level's bottom edge a player may drop before it counts as a fall. */
  const FallMargin: real := 100.0

  datatype Game = Game(
    state: State,
    previousState: Option<State>,
    player: Option<Player.Player>,
    platforms: seq<Platform.Platform>,
    coins: seq<Coin.Coin>,
    input: InputHandler.Input,
    score: ScoreManager.Score,
    levels: LevelManager.Manager,
    loop: GameLoop.Loop,
    gameTime: real,
    transitionTimer: real)

  /** What a tick needs from the outside world. */
  datatype Effects = Effects(
    sin: real -> real,
    sqrt: real -> real,
    shake: real,
    sparkle: seq<Helpers.Particle>,
    burst: seq<Helpers.Particle>)

  ghost predicate Sound(fx: Effects) {
    Coin.SinSpec(fx.sin) && Vector2.SqrtSpec(fx.sqrt) && -1.0 <= fx.shake <= 1.0
  }

  /** The constructor and `initialize`: the menu, nothing loaded yet. */
  function Create(levels: LevelManager.Manager, score: ScoreManager.Score): (g: Game)
    ensures g.state == Menu && g.player.None? && g.platforms == [] && g.coins == []
    ensures g.gameTime == 0.0 && g.transitionTimer == 0.0 && !g.loop.isRunning
  {
    Game(Menu, None, None, [], [], InputHandler.Create(), score, levels, GameLoop.Create(), 0.0, 0.0)
  }

  // ---------------------------------------------------------------------
  // Screen states.
  // ---------------------------------------------------------------------

  /** `setState`: remembers the old state and restarts the transition clock. */
  function SetState(g: Game, s: State): (r: Game)
    ensures r.state == s && r.previousState == Some(g.state) && r.transitionTimer == 0.0
    ensures r.(state := g.state, previousState := g.previousState, transitionTimer := g.transitionTimer) == g
  {
    g.(previousState := Some(g.state), state := s, transitionTimer := 0.0)
  }

  /** `pause`: only from `Playing`; the loop is paused too. */
  function Pause(g: Game): (r: Game)
    ensures g.state != Playing ==> r == g
    ensures g.state == Playing ==> r.state == Paused && r.loop.isPaused && r.previousState == Some(Playing)
  {
    if g.state != Playing then g
    else SetState(g, Paused).(loop := GameLoop.Pause(g.loop))
  }

  /** `resume`: only from `Paused`; the loop resumes stamped with `now`. */
  function Resume(g: Game, now: real): (r: Game)
    ensures g.state != Paused ==> r == g
    ensures g.state == Paused ==> r.state == Playing && !r.loop.isPaused && r.loop.lastTime == now
  {
    if g.state != Paused then g
    else SetState(g, Playing).(loop := GameLoop.Resume(g.loop, now))
  }

  /** `togglePause`. */
  function TogglePause(g: Game, now: real): (r: Game)
    ensures g.state == Playing ==> r == Pause(g)
    ensures g.state == Paused ==> r == Resume(g, now)
    ensures g.state != Playing && g.state != Paused ==> r == g
  {
    if g.state == Playing then Pause(g)
    else if g.state == Paused then Resume(g, now)
    else g
  }

  /**
   * Toggling twice from `Playing` comes back to `Playing` with the world
   * untouched; only the state history, the transition clock and the loop's
   * time stamp differ.
   */
  lemma TogglePauseTwice(g: Game, now: real)
    requires g.state == Playing
    ensures var r := TogglePause(TogglePause(g, now), now);
            && r.state == Playing && r.previousState == Some(Paused) && !r.loop.isPaused
            && r.(previousState := g.previousState, transitionTimer := g.transitionTimer, loop := g.loop) == g
            && r.loop == g.loop.(isPaused := false, lastTime := now)
  {
  }

  /** `gameOver`: once; the loop is paused. */
  function GameOver(g: Game): (r: Game)
    ensures r.gameTime == g.gameTime
    ensures g.state == Lost ==> r == g
    ensures r.state == Lost
    ensures g.state != Lost ==> r.loop.isPaused && r.previousState == Some(g.state) && r.transitionTimer == 0.0
    ensures r.player == g.player && r.score == g.score && r.levels == g.levels
  {
    if g.state == Lost then g
    else SetState(g, Lost).(loop := GameLoop.Pause(g.loop))
  }

  /** `victory`: once; the loop is paused. */
  function Victory(g: Game): (r: Game)
    ensures r.gameTime == g.gameTime
    ensures g.state == Won ==> r == g
    ensures r.state == Won
    ensures g.state != Won ==> r.loop.isPaused && r.previousState == Some(g.state) && r.transitionTimer == 0.0
    ensures r.player == g.player && r.score == g.score && r.levels == g.levels
  {
    if g.state == Won then g
    else SetState(g, Won).(loop := GameLoop.Pause(g.loop))
  }

  /** Ending twice is ending once. */
  lemma EndingsIdempotent(g: Game)
    ensures GameOver(GameOver(g)) == GameOver(g)
    ensures Victory(Victory(g)) == Victory(g)
  {
  }

  /** `updateTransition`: the end screens only count time. */
  function UpdateTransition(g: Game, deltaTime: real): (r: Game)
    ensures r.transitionTimer == g.transitionTimer + deltaTime
    ensures r.(transitionTimer := g.transitionTimer) == g
  {
    g.(transitionTimer := g.transitionTimer + deltaTime)
  }

  // ---------------------------------------------------------------------
  // Loading a level.
  // ---------------------------------------------------------------------

  /** `value || fallback` for an optional number: missing and 0 fall back. */
  function OrDefault(v: Option<real>, fallback: real): (r: real)
    ensures v.Some? && v.value != 0.0 ==> r == v.value
    ensures v.None? || v.value == 0.0 ==> r == fallback
  {
    if v.Some? && v.value != 0.0 then v.value else fallback
  }

  /** A platform built from its descriptor with the defaults of `loadCurrentLevel`. */
  function BuildPlatform(d: LevelManager.PlatformData): (p: Platform.Platform)
    ensures p.x == d.x && p.y == d.y
    ensures p.width == OrDefault(d.width, Platform.DefaultWidth) && p.height == OrDefault(d.height, Platform.DefaultHeight)
    ensures d.kind.None? || d.kind.value == "" ==> p.kind == Platform.Normal
    ensures d.kind.Some? && d.kind.value != "" ==> p.kind == Platform.KindOf(d.kind.value)
  {
    var kind := if d.kind.Some? && d.kind.value != "" then d.kind.value else "normal";
    Platform.Create(d.x, d.y, OrDefault(d.width, Platform.DefaultWidth), OrDefault(d.height, Platform.DefaultHeight), kind)
  }

  /** A descriptor width of 0 is read as missing: the platform gets the default 128. */
  lemma ZeroWidthBecomesDefault(d: LevelManager.PlatformData)
    requires d.width == Some(0.0)
    ensures BuildPlatform(d).width == 128.0
  {
  }

  /**
   * `loadCurrentLevel`: throws without a current level; otherwise one
   * platform per platform descriptor and one coin per coin descriptor, in
   * order, and the player created or reset at the start position.
   */
  function LoadCurrentLevel(g: Game): (r: Option<Game>)
    ensures r.None? <==> g.levels.currentLevel.None?
    ensures r.Some? ==>
              var level := g.levels.currentLevel.value;
              && |r.value.platforms| == |level.platforms|
              && (forall i :: 0 <= i < |level.platforms| ==> r.value.platforms[i] == BuildPlatform(level.platforms[i]))
              && |r.value.coins| == |level.coins|
              && (forall i :: 0 <= i < |level.coins| ==>
                    r.value.coins[i] == Coin.Create(level.coins[i].x, level.coins[i].y))
              && r.value.player.Some?
              && r.value.player.value.x == level.startPosition.x && r.value.player.value.y == level.startPosition.y
              && r.value.player.value.lives == Player.MaxHealth
    ensures r.Some? ==> r.value.(platforms := g.platforms, coins := g.coins, player := g.player) == g
  {
    match g.levels.currentLevel
    case None => None
    case Some(level) =>
      var platforms := seq(|level.platforms|, i requires 0 <= i < |level.platforms| => BuildPlatform(level.platforms[i]));
      var coins := seq(|level.coins|, i requires 0 <= i < |level.coins| => Coin.Create(level.coins[i].x, level.coins[i].y));
      var start := level.startPosition;
      var player := if g.player.None? then Player.Create(start.x, start.y) else Player.Reset(g.player.value, start.x, start.y);
      Some(g.(platforms := platforms, coins := coins, player := Some(player)))
  }

  /**
   * On the first built-in level the player spawns at (100, 400) above a
   * 200 × 32 platform at (50, 450), sunk 14 pixels into it: the contact
   * that `PhysicsEngine.LandingPushesThrough` resolves downwards.
   */
  lemma FirstLevelSpawnOverlapsStart(g: Game)
    requires g.levels.currentLevel == Some(LevelManager.Level1())
    ensures var r := LoadCurrentLevel(g).value;
            && r.player.value.x == 100.0 && r.player.value.y == 400.0
            && r.platforms[0] == Platform.Create(50.0, 450.0, 200.0, 32.0, "normal")
            && r.player.value.y + Player.Height - r.platforms[0].y == 14.0
  {
    var level := LevelManager.Level1();
    assert level.platforms[0] == LevelManager.Normal(50.0, 450.0, 200.0);
    assert level.startPosition == LevelManager.Point(100.0, 400.0);
  }

  // ---------------------------------------------------------------------
  // One tick of play.
  // ---------------------------------------------------------------------

  /**
   * The input the player reads: as written `inputHandler.update()` has
   * already cleared the one-shot flags; corrected they are read first.
   */
  function SeenInput(input: InputHandler.Input, reading: Reading): (r: InputHandler.Input)
    ensures reading == AsWritten ==> r == InputHandler.Update(input) && !InputHandler.IsJumpPressed(r)
    ensures reading == Corrected ==> r == input
  {
    InputHandler.UpdateConsumesJump(input);
    if reading == AsWritten then InputHandler.Update(input) else input
  }

  /**
   * A non-fatal fall: back to the start with `RespawnInvincibility`. As
   * written `reset` restores full lives; corrected the damaged count is
   * kept.
   */
  function Respawn(hurt: Player.Player, start: LevelManager.Point, reading: Reading): (r: Player.Player)
    ensures r.x == start.x && r.y == start.y && r.vx == 0.0 && r.vy == 0.0
    ensures r.isInvincible && r.invincibilityTimer == RespawnInvincibility
    ensures reading == AsWritten ==> r.lives == Player.MaxHealth
    ensures reading == Corrected ==> r.lives == hurt.lives
  {
    var back := Player.Reset(hurt, start.x, start.y);
    var kept := if reading == Corrected then back.(lives := hurt.lives) else back;
    kept.(isInvincible := true, invincibilityTimer := RespawnInvincibility)
  }

  /**
   * The player part of `updatePlaying`: the input flags are cleared, the
   * player is updated, and a dead player or a fatal fall ends the game
   * and the tick (the second component); a survivable fall respawns.
   */
  function PlayerPhase(g: Game, deltaTime: real, reading: Reading): (r: (Game, bool))
    ensures r.0.input == InputHandler.Update(g.input)
    ensures g.player.None? ==> r == (g.(input := InputHandler.Update(g.input)), false)
    ensures r.1 ==> r.0 == GameOver(r.0.(state := g.state, previousState := g.previousState,
                                         transitionTimer := g.transitionTimer, loop := g.loop))
    ensures r.1 ==> r.0.state == Lost
    ensures !r.1 ==> r.0 == g.(input := InputHandler.Update(g.input), player := r.0.player)
    ensures g.player.Some? ==> r.0.player.Some?
    ensures r.0.levels == g.levels && r.0.score == g.score && r.0.platforms == g.platforms && r.0.coins == g.coins
  {
    var cleared := g.(input := InputHandler.Update(g.input));
    match g.player
    case None => (cleared, false)
    case Some(p) =>
      var moved := Player.Update(p, deltaTime, SeenInput(g.input, reading));
      if !Player.IsAlive(moved) then (GameOver(cleared.(player := Some(moved))), true)
      else
        match g.levels.currentLevel
        case None => (cleared.(player := Some(moved)), false)
        case Some(level) =>
          if moved.y > level.height + FallMargin then
            var damaged := Player.TakeDamage(moved, 1);
            if damaged.1 then (GameOver(cleared.(player := Some(damaged.0))), true)
            else (cleared.(player := Some(Respawn(damaged.0, level.startPosition, reading))), false)
          else (cleared.(player := Some(moved)), false)
  }

  /**
   * As written, a jump pressed between ticks never happens: a grounded
   * player that has not yet jumped stays on the ground with no vertical
   * speed.
   */
  lemma JumpLostAsWritten(g: Game, deltaTime: real)
    requires g.player.Some? && g.player.value.isOnGround && !g.player.value.isJumping
    requires Player.IsAlive(g.player.value) && InputHandler.IsJumpPressed(g.input)
    requires Player.MinY <= g.player.value.y
    requires g.levels.currentLevel.Some? ==> g.player.value.y <= g.levels.currentLevel.value.height + FallMargin
    ensures var r := PlayerPhase(g, deltaTime, AsWritten);
            !r.1 && !r.0.player.value.isJumping && r.0.player.value.vy == 0.0
  {
    var p := g.player.value;
    var steered := Player.HandleInput(Player.TickInvincibility(p, deltaTime), SeenInput(g.input, AsWritten));
    assert steered.isOnGround && !steered.isJumping;
    var moved := Player.ApplyPhysics(steered, deltaTime);
    assert moved.vy == 0.0;
    assert moved.y == p.y;
  }

  /** Corrected, the same press makes the player jump. */
  lemma JumpTakenCorrected(g: Game, deltaTime: real)
    requires g.player.Some? && g.player.value.isOnGround && !g.player.value.isJumping
    requires Player.IsAlive(g.player.value) && InputHandler.IsJumpPressed(g.input)
    requires deltaTime >= 0.0 && Player.MinY <= g.player.value.y
    requires g.levels.currentLevel.Some? ==> g.player.value.y <= g.levels.currentLevel.value.height + FallMargin
    ensures var r := PlayerPhase(g, deltaTime, Corrected);
            !r.1 && r.0.player.value.isJumping
  {
    var p := g.player.value;
    var steered := Player.HandleInput(Player.TickInvincibility(p, deltaTime), g.input);
    assert steered.vy == Player.JumpForce;
    var moved := Player.ApplyPhysics(steered, deltaTime);
    assert moved.vy == Player.JumpForce + Player.Gravity;
    Helpers.ProductNonNegative(deltaTime, 14.5);
    assert moved.y <= p.y;
  }

  /**
   * As written, a survivable fall costs nothing in the end: the damage is
   * taken and `reset` then restores full lives.
   */
  lemma FallCostsNoLifeAsWritten(g: Game, deltaTime: real)
    requires g.player.Some? && g.levels.currentLevel.Some?
    requires !g.player.value.isInvincible && g.player.value.lives >= 2
    requires Player.Update(g.player.value, deltaTime, SeenInput(g.input, AsWritten)).y
             > g.levels.currentLevel.value.height + FallMargin
    ensures var r := PlayerPhase(g, deltaTime, AsWritten);
            !r.1 && r.0.player.value.lives == Player.MaxHealth
  {
  }

  /** Corrected, each survivable fall costs exactly one life. */
  lemma FallCostsOneLifeCorrected(g: Game, deltaTime: real)
    requires g.player.Some? && g.levels.currentLevel.Some?
    requires !g.player.value.isInvincible && g.player.value.lives >= 2
    requires Player.Update(g.player.value, deltaTime, SeenInput(g.input, Corrected)).y
             > g.levels.currentLevel.value.height + FallMargin
    ensures var r := PlayerPhase(g, deltaTime, Corrected);
            !r.1 && r.0.player.value.lives == g.player.value.lives - 1
  {
  }

  /**
   * As written, a player with full lives never dies, whatever happens in
   * the tick: the death branches of `updatePlaying` cannot be reached.
   */
  lemma FullLivesNeverEndAsWritten(g: Game, deltaTime: real)
    requires g.player.Some? && g.player.value.lives == Player.MaxHealth
    ensures var r := PlayerPhase(g, deltaTime, AsWritten);
            !r.1 && r.0.player.value.lives == Player.MaxHealth
  {
  }

  /** Corrected, a fall on the last life ends the game. */
  lemma LastLifeFallEndsCorrected(g: Game, deltaTime: real)
    requires g.player.Some? && g.levels.currentLevel.Some?
    requires !g.player.value.isInvincible && g.player.value.lives == 1
    requires Player.Update(g.player.value, deltaTime, SeenInput(g.input, Corrected)).y
             > g.levels.currentLevel.value.height + FallMargin
    ensures var r := PlayerPhase(g, deltaTime, Corrected);
            r.1 && r.0.state == Lost
  {
  }

  /** Every platform advances one tick. */
  function UpdatePlatforms(platforms: seq<Platform.Platform>, deltaTime: real, shake: real): (r: seq<Platform.Platform>)
    requires -1.0 <= shake <= 1.0
    ensures |r| == |platforms|
    ensures forall i :: 0 <= i < |platforms| ==> r[i] == Platform.Update(platforms[i], deltaTime, shake)
  {
    seq(|platforms|, i requires 0 <= i < |platforms| => Platform.Update(platforms[i], deltaTime, shake))
  }

  /** The number of coins not yet collected. */
  function CountActive(coins: seq<Coin.Coin>): (n: nat)
    ensures n <= |coins|
  {
    if |coins| == 0 then 0
    else CountActive(coins[..|coins| - 1]) + (if coins[|coins| - 1].isCollected then 0 else 1)
  }

  /** A list of collected coins has none active. */
  lemma {:induction false} NoneActive(coins: seq<Coin.Coin>)
    requires forall i :: 0 <= i < |coins| ==> coins[i].isCollected
    ensures CountActive(coins) == 0
    decreases |coins|
  {
    if |coins| > 0 {
      NoneActive(coins[..|coins| - 1]);
    }
  }

  /** The outcome of the coin loop: the coins kept, the score and level progress, and how many were collected. */
  datatype CoinPass = CoinPass(coins: seq<Coin.Coin>, score: ScoreManager.Score, levels: LevelManager.Manager, collected: nat)

  /** Whether the player's box touches the coin's circle. */
  predicate Touches(c: Coin.Coin, p: Player.Player, sqrt: real -> real)
    requires Vector2.SqrtSpec(sqrt)
  {
    CollisionSystem.CheckCircleRectCollision(Coin.GetCollisionCircle(c), Player.GetCollisionRect(p), sqrt).collided
  }

  /**
   * The coin loop of `updatePlaying`, from the last coin to the first:
   * each coin is updated; an active coin the player touches is collected
   * and counted once by the score and once by the level; a removable coin
   * is spliced out, which leaves the coins still to visit where they are.
   */
  function CoinLoop(coins: seq<Coin.Coin>, player: Option<Player.Player>, score: ScoreManager.Score,
                    levels: LevelManager.Manager, deltaTime: real, fx: Effects): (r: CoinPass)
    requires Sound(fx)
    ensures r.collected <= CountActive(coins)
    ensures player.None? ==> r.collected == 0
    ensures r.score.coinsCollected == score.coinsCollected + r.collected
    ensures r.levels == levels.(progress := levels.progress.(collectedCoins := levels.progress.collectedCoins + r.collected))
    ensures r.collected == 0 ==> r.score == score
    ensures ScoreManager.Valid(score) ==> ScoreManager.Valid(r.score)
    ensures |r.coins| <= |coins|
    ensures forall k :: 0 <= k < |r.coins| ==> !Coin.ShouldRemove(r.coins[k])
    decreases |coins|
  {
    if |coins| == 0 then CoinPass([], score, levels, 0)
    else
      var n := |coins| - 1;
      var ticked := Coin.Update(coins[n], deltaTime, fx.sin, fx.sparkle);
      var hit := !ticked.isCollected && player.Some? && Touches(ticked, player.value, fx.sqrt);
      var coin := if hit then Coin.Collect(ticked, fx.burst).0 else ticked;
      var nextScore := if hit then ScoreManager.AddCoin(score).0 else score;
      var nextLevels := if hit then LevelManager.CollectCoin(levels) else levels;
      var rest := CoinLoop(coins[..n], player, nextScore, nextLevels, deltaTime, fx);
      CoinPass(rest.coins + (if Coin.ShouldRemove(coin) then [] else [coin]),
               rest.score, rest.levels, rest.collected + (if hit then 1 else 0))
  }

  /** Coins already collected never pay again. */
  lemma CollectedCoinsPayNothing(coins: seq<Coin.Coin>, player: Option<Player.Player>, score: ScoreManager.Score,
                                 levels: LevelManager.Manager, deltaTime: real, fx: Effects)
    requires Sound(fx)
    requires forall i :: 0 <= i < |coins| ==> coins[i].isCollected
    ensures var r := CoinLoop(coins, player, score, levels, deltaTime, fx);
            r.collected == 0 && r.score == score && r.levels == levels
  {
    NoneActive(coins);
  }

  /**
   * `completeLevel`: only from `Playing`. The level score is added, then
   * the last level leads to victory, and otherwise the next level is
   * loaded and play goes on. As written the statistics carry no time
   * limit; corrected they do. A throw leaves the game where it stopped.
   */
  function CompleteLevel(g: Game, reading: Reading): (r: Game)
    ensures g.state != Playing ==> r == g
    ensures r.gameTime == g.gameTime
    ensures g.state == Playing && g.levels.currentLevel.Some? && LevelManager.IsLastLevel(g.levels) ==> r.state == Won
    ensures g.state == Playing && g.levels.currentLevel.Some? && !LevelManager.IsLastLevel(g.levels)
            && LevelManager.NextIndexNotNegative(g.levels) ==>
              && r.state == Playing
              && r.levels.currentLevelIndex == g.levels.currentLevelIndex + 1
              && r.levels.progress.collectedCoins == 0 && r.levels.progress.totalTime == 0.0
              && |r.coins| == r.levels.progress.totalCoins
    ensures g.state == Playing && g.levels.currentLevel.Some? && reading == AsWritten ==>
              r.score.currentScore == ScoreManager.NotANumber
  {
    if g.state != Playing then g
    else
      var s := SetState(g, LevelComplete);
      var stats := if reading == Corrected then LevelManager.GetLevelStats(s.levels)
                   else LevelManager.GetLevelStatsAsWritten(s.levels);
      match stats
      case None => s
      case Some(st) =>
        var calculated := ScoreManager.CalculateLevelScore(s.score, st);
        var scored := s.(score := ScoreManager.AddScore(calculated.0, calculated.1.totalScore, ScoreManager.LevelCompleteReason).0);
        if LevelManager.IsLastLevel(scored.levels) then Victory(scored)
        else
          match LevelManager.NextLevel(scored.levels)
          case None => scored
          case Some(next) =>
            if !next.1 then Victory(scored.(levels := next.0))
            else
              match LoadCurrentLevel(scored.(levels := next.0))
              case None => scored.(levels := next.0)
              case Some(loaded) => SetState(loaded, Playing)
  }

  /**
   * The world part of `updatePlaying`, after the player: platforms, coins,
   * collisions, then the level and combo clocks.
   */
  function WorldPhase(a: Game, deltaTime: real, fx: Effects, reading: Reading): (r: Game)
    requires Sound(fx)
    ensures r.state == a.state && r.input == a.input && r.loop == a.loop && r.gameTime == a.gameTime
    ensures a.player.Some? <==> r.player.Some?
    ensures r.levels.currentLevel == a.levels.currentLevel && r.levels.levels == a.levels.levels
    ensures r.levels.currentLevelIndex == a.levels.currentLevelIndex
    ensures |r.platforms| == |a.platforms| && |r.coins| <= |a.coins|
  {
    var pass := CoinLoop(a.coins, a.player, a.score, a.levels, deltaTime, fx);
    var b := a.(platforms := UpdatePlatforms(a.platforms, deltaTime, fx.shake),
                coins := pass.coins, score := pass.score, levels := pass.levels);
    var c := if b.player.Some? then
               var contact := HandleCollisions(b.player.value, b.platforms, reading);
               b.(player := Some(contact.player), platforms := contact.platforms)
             else b;
    c.(levels := LevelManager.Update(c.levels, deltaTime), score := ScoreManager.Update(c.score, deltaTime))
  }

  /** The end of `updatePlaying`: completion is checked first, then the time limit. */
  function EndChecks(d: Game, reading: Reading): (r: Game)
    ensures r.gameTime == d.gameTime
    ensures LevelManager.IsTimeExpired(r.levels) ==> r.state == Lost
    ensures !LevelManager.IsLevelComplete(d.levels) && !LevelManager.IsTimeExpired(d.levels) ==> r == d
    ensures !LevelManager.IsLevelComplete(d.levels) && LevelManager.IsTimeExpired(d.levels) ==> r == GameOver(d)
    ensures LevelManager.IsLevelComplete(d.levels) && d.levels.currentLevel.value.timeLimit > 0.0
            && d.state == Playing && !LevelManager.IsLastLevel(d.levels) && LevelManager.NextIndexNotNegative(d.levels) ==>
              r.state == Playing
  {
    var e := if LevelManager.IsLevelComplete(d.levels) then CompleteLevel(d, reading) else d;
    if LevelManager.IsTimeExpired(e.levels) then GameOver(e) else e
  }

  /** Completing a level within its time limit never ends in a game over. */
  lemma CompletionBeatsTheClock(d: Game, reading: Reading)
    requires d.state == Playing
    requires LevelManager.IsLevelComplete(d.levels) && d.levels.currentLevel.value.timeLimit > 0.0
    ensures EndChecks(d, reading).state != Lost
  {
    LevelManager.CompleteExpiredExclusive(d.levels);
    var e := CompleteLevel(d, reading);
    if !LevelManager.IsLastLevel(d.levels) {
      if LevelManager.NextIndexNotNegative(d.levels) {
        assert !LevelManager.IsTimeExpired(e.levels);
      } else {
        assert e.levels == d.levels;
      }
    }
  }

  /**
   * `updatePlaying`: input, player (with the fall check), platforms,
   * coins, collisions, level clock, combo clock; then completion and the
   * time limit are checked, in that order.
   */
  function UpdatePlaying(g: Game, deltaTime: real, fx: Effects, reading: Reading): (r: Game)
    requires Sound(fx)
    ensures PlayerPhase(g, deltaTime, reading).1 ==> r == PlayerPhase(g, deltaTime, reading).0
    ensures !PlayerPhase(g, deltaTime, reading).1 ==>
              r == EndChecks(WorldPhase(PlayerPhase(g, deltaTime, reading).0, deltaTime, fx, reading), reading)
    ensures LevelManager.IsTimeExpired(r.levels) ==> r.state == Lost
    ensures r.gameTime == g.gameTime
  {
    var phase := PlayerPhase(g, deltaTime, reading);
    if phase.1 then phase.0
    else EndChecks(WorldPhase(phase.0, deltaTime, fx, reading), reading)
  }

  /**
   * Within a tick, each coin is collected at most once, and the score and
   * the level count exactly the coins collected.
   */
  lemma CoinsCountedOnce(g: Game, deltaTime: real, fx: Effects)
    requires Sound(fx)
    ensures var a := PlayerPhase(g, deltaTime, Corrected).0;
            var pass := CoinLoop(a.coins, a.player, a.score, a.levels, deltaTime, fx);
            && pass.collected <= CountActive(g.coins)
            && pass.score.coinsCollected - g.score.coinsCollected
               == pass.levels.progress.collectedCoins - g.levels.progress.collectedCoins
               == pass.collected
  {
  }

  /**
   * `update`: the game clock always advances; play runs only in
   * `Playing`, the end screens only count their transition time, and
   * nothing else moves.
   */
  function Update(g: Game, deltaTime: real, fx: Effects, reading: Reading): (r: Game)
    requires Sound(fx)
    ensures g.state == Playing ==> r == UpdatePlaying(g.(gameTime := g.gameTime + deltaTime), deltaTime, fx, reading)
    ensures g.state == Lost || g.state == Won ==>
              r == g.(gameTime := g.gameTime + deltaTime, transitionTimer := g.transitionTimer + deltaTime)
    ensures g.state == Paused || g.state == Menu || g.state == LevelComplete ==> r == g.(gameTime := g.gameTime + deltaTime)
    ensures r.gameTime == g.gameTime + deltaTime
  {
    var timed := g.(gameTime := g.gameTime + deltaTime);
    match g.state
    case Playing => UpdatePlaying(timed, deltaTime, fx, reading)
    case Lost => UpdateTransition(timed, deltaTime)
    case Won => UpdateTransition(timed, deltaTime)
    case _ => timed
  }

  /**
   * `n` fixed-size ticks, as one frame of the game loop hands them out.
   * Each tick adds exactly `step` to the game clock, whatever the state
   * does.
   */
  function Ticks(g: Game, n: nat, step: real, fx: Effects, reading: Reading): (r: Game)
    requires Sound(fx)
    ensures r.gameTime == g.gameTime + (n as real) * step
    decreases n
  {
    if n == 0 then g
    else
      var next := Update(g, step, fx, reading);
      ClockStep(g.gameTime, n, step);
      Ticks(next, n - 1, step, fx, reading)
  }

  /** One step followed by `n - 1` more is `n` steps. */
  lemma ClockStep(t: real, n: nat, step: real)
    requires n > 0
    ensures (t + step) + ((n - 1) as real) * step == t + (n as real) * step
  {
  }

  /** A paused game only accumulates game time, however many ticks pass. */
  lemma {:induction false} PausedOnlyCountsTime(g: Game, n: nat, step: real, fx: Effects, reading: Reading)
    requires Sound(fx)
    requires g.state == Paused
    ensures Ticks(g, n, step, fx, reading) == g.(gameTime := g.gameTime + (n as real) * step)
    decreases n
  {
    if n > 0 {
      var next := Update(g, step, fx, reading);
      assert next == g.(gameTime := g.gameTime + step);
      PausedOnlyCountsTime(next, n - 1, step, fx, reading);
      ClockStep(g.gameTime, n, step);
    }
  }

  /**
   * One animation frame: the loop decides how many ticks are owed and the
   * game takes them at the loop's step. A frame of a stopped or paused
   * loop does nothing; a loop whose step can never be drained never
   * returns (`None`).
   */
  function Frame(g: Game, currentTime: real, updateTime: real, drawTime: real, fx: Effects, reading: Reading): (r: Option<Game>)
    requires Sound(fx)
    ensures !g.loop.isRunning || g.loop.isPaused ==> r == Some(g)
    ensures GameLoop.ValidStep(g.loop.timeStep) ==> r.Some?
    ensures var f := GameLoop.RunFrame(g.loop, currentTime, updateTime, drawTime);
            f.Ran? && f.loop.timeStep.Finite? ==>
              r == Some(Ticks(g.(loop := f.loop), f.ticks, f.loop.timeStep.value, fx, reading))
  {
    match GameLoop.RunFrame(g.loop, currentTime, updateTime, drawTime)
    case Skipped => Some(g)
    case Hung => None
    case Ran(loop, ticks) =>
      var step := if loop.timeStep.Finite? then loop.timeStep.value else 0.0;
      Some(Ticks(g.(loop := loop), ticks, step, fx, reading))
  }

  /**
   * A frame in which the loop runs with a finite step hands the game
   * exactly the loop's tick count of updates, each of exactly `timeStep`:
   * the game clock advances by ticks times the step.
   */
  lemma FrameAdvancesClock(g: Game, currentTime: real, updateTime: real, drawTime: real, fx: Effects, reading: Reading)
    requires Sound(fx)
    ensures var f := GameLoop.RunFrame(g.loop, currentTime, updateTime, drawTime);
            var r := Frame(g, currentTime, updateTime, drawTime, fx, reading);
            f.Ran? && g.loop.timeStep.Finite? ==>
              r.Some? && r.value.gameTime == g.gameTime + (f.ticks as real) * g.loop.timeStep.value
  {
    var f := GameLoop.RunFrame(g.loop, currentTime, updateTime, drawTime);
    if f.Ran? && g.loop.timeStep.Finite? {
      var step := g.loop.timeStep.value;
      assert f.loop.timeStep == g.loop.timeStep;
      var start := g.(loop := f.loop);
      var r := Frame(g, currentTime, updateTime, drawTime, fx, reading);
      assert r == Some(Ticks(start, f.ticks, step, fx, reading));
      assert start.gameTime == g.gameTime;
    }
  }
}

# Pixel jumper — a verified model of the simulation core

This project models the deterministic core of a browser canvas platformer.
A player runs and jumps across normal, moving, breakable and jump-boost
platforms. The player collects coins against a time limit and advances
through three built-in levels. The model is written in Dafny over `real`
numbers. It covers:

- the vector and helper utilities;
- the collision layer (`CollisionSystem`, `PhysicsEngine`);
- the three entities (`Player`, `Platform`, `Coin`);
- the fixed-step game loop and the input state;
- the score and level managers;
- the game's screen-state machine and its per-tick update.

Floating-point primitives are parameters constrained only by what the
proofs need:

- `Math.sqrt` is a function `sqrt` with `sqrt(x) >= 0` and `sqrt(x)^2 = x` (`Vector2.SqrtSpec`).
- `Math.sin` is a function bounded by 1 in absolute value (`Coin.SinSpec`).
- `Math.pow(f, dt)` is a decay factor in (0, 1] (`PhysicsEngine.IsDecay`).

Wall-clock readings are explicit arguments. Randomly generated particles
are passed in as sequences. Breakable-platform jitter is a shake value in
[-1, 1].

Other JavaScript values are modelled as follows:

- `NaN` in scores is `ScoreManager.Points.NotANumber`.
- A missing property is `Option.None`.
- `Infinity` is `GameLoop.Extended.Infinity` or `LevelManager.Remaining.Unlimited`.

Where the code as written contradicts what its comments, names or callers
evidently intend, both readings are modelled:

- `PhysicsEngine.Reading` selects `AsWritten` or `Corrected` for the game-level defects.
- Each defect has a lemma exhibiting it and a lemma proving the intended property of the repair (see "## Findings").

The modules follow the source files one to one: `Vector2`, `Helpers`
(with `TextFormat` for `formatTime` and `formatNumber`), `CollisionSystem`,
`InputHandler`, `Player`, `Platform`, `Coin`, `PhysicsEngine`, `GameLoop`,
`ScoreManager`, `LevelManager` and `Game`. `Wrappers` holds `Option` and
`Shapes` the rectangles, circles and sides they share.

## Model

| member | source | states |
|---|---|---|
| Shapes.Opposite | js/PhysicsEngine.js:93-113 | the side facing the other way is never the same side |
| Shapes.OppositeInvolution | js/PhysicsEngine.js:93-113 | taking the opposite side twice gives back the original side |
| Vector2.Add | js/utils/Vector2.js:27-31 | the sum minus the second operand recovers the first, componentwise |
| Vector2.Subtract | js/utils/Vector2.js:38-42 | the difference plus the subtrahend recovers the minuend, componentwise |
| Vector2.AddSubtractRoundTrip | js/utils/Vector2.js:205-217 | `subtract(add(a, b), b) == a`; the static forms build new vectors and leave their arguments as they were |
| Vector2.Divide | js/utils/Vector2.js:60-66 | dividing by 0 leaves the vector unchanged; any other scalar gives components that multiply back to the originals |
| Vector2.LengthSquared | js/utils/Vector2.js:92-94 | the squared length is never negative |
| Vector2.Length | js/utils/Vector2.js:84-86 | the length is non-negative and its square is the squared length |
| Vector2.SetZero | js/utils/Vector2.js:145-149 | after `zero()` both components are 0 and the squared length is 0 |
| Vector2.Normalize | js/utils/Vector2.js:72-78 | the zero vector stays zero with no division; a vector of positive length becomes a unit vector that scales back to the original by its length |
| Vector2.UnitAfterDivide | js/utils/Vector2.js:60-78 | dividing a vector by its positive length yields squared length 1 |
| Vector2.Limit | js/utils/Vector2.js:101-108 | with m >= 0 a vector no longer than m is untouched; a longer one ends with length exactly m and points the same way, each component scaled by m over the original length |
| Vector2.ScaleLengthSquared | js/utils/Vector2.js:49-53 | scaling by s multiplies the squared length by s squared |
| Vector2.Multiply | js/utils/Vector2.js:49-53 | scaling by 0 gives the zero vector and scaling by 1 changes nothing |
| Vector2.MultiplyDivide | js/utils/Vector2.js:49-66 | dividing by a non-zero scalar undoes multiplying by it |
| Vector2.Dot | js/utils/Vector2.js:137-139 | a vector dotted with itself gives its squared length, and dotting with the zero vector gives 0 |
| Vector2.DotSymmetric | js/utils/Vector2.js:137-139 | the dot product does not depend on the order of its operands |
| Vector2.Equals | js/utils/Vector2.js:156-158 | `equals` holds exactly when the two vectors are the same value |
| Helpers.Clamp | js/utils/Helpers.js:32-34 | the result lies in [min, max] when min <= max; a value already inside is returned; values outside map to the nearer bound |
| Helpers.ClampIdempotent | js/utils/Helpers.js:32-34 | clamping an already clamped value changes nothing |
| Helpers.Lerp | js/utils/Helpers.js:43-45 | interpolation at t = 0 gives a and at t = 1 gives b |
| Helpers.LerpBetween | js/utils/Helpers.js:43-45 | for t in [0, 1] the interpolant lies between a and b |
| Helpers.ClosestPoint | js/utils/Helpers.js:342-345 | the clamped nearest point lies inside the rectangle on each axis of non-negative extent |
| Helpers.CircleRectIntersect | js/utils/Helpers.js:342-347 | for a non-negative radius, the distance test equals the squared-distance test against the squared radius; a negative radius never intersects |
| Helpers.RectIntersect | js/utils/Helpers.js:329-334 | rectangles that only share an edge, on either axis and in either order, do not intersect; intersecting ones have a positive combined width and height |
| Helpers.Advance | js/utils/Helpers.js:203-206 | a particle moves by velocity times elapsed time and loses decay times elapsed time of life |
| Helpers.Survivors | js/utils/Helpers.js:201-212 | the filtered list is no longer than the input and every particle left in it has positive life |
| Helpers.UpdateParticles | js/utils/Helpers.js:201-212 | the in-place backward splice loop produces exactly the survivor list and never grows it |
| Helpers.SurvivingIndices | js/utils/Helpers.js:201-212 | the surviving positions are strictly increasing and contain exactly the indices whose advanced particle is alive |
| Helpers.SurvivorsKeepOrder | js/utils/Helpers.js:201-212 | the k-th survivor is the advanced particle at the k-th surviving index, so relative order is kept |
| TextFormat.NatToString | js/utils/Helpers.js:107-109 | decimal rendering is non-empty, all digits, without a leading zero, one character exactly below 10 |
| TextFormat.NatToStringRoundTrip | js/utils/Helpers.js:107-109 | reading the decimal digits back gives the number |
| TextFormat.PadStart2 | js/utils/Helpers.js:109 | padding to two characters keeps strings of length two or more and otherwise yields exactly two |
| TextFormat.Pad2Value | js/utils/Helpers.js:107-109 | a number below 100 pads to two digits whose value is the number |
| TextFormat.MinutesAndSeconds | js/utils/Helpers.js:107-108 | for a non-negative time, floor of seconds/60 and floor of the JavaScript remainder are the integer quotient and remainder by 60 |
| TextFormat.FormatTime | js/utils/Helpers.js:106-110 | the rendered time has at least five characters |
| TextFormat.FormatTimeRoundTrip | js/utils/Helpers.js:106-110 | for 0 <= s < 6000 the text is "MM:SS" whose fields read back as s div 60 and s mod 60 |
| TextFormat.InsertCommasIsGroup | js/utils/Helpers.js:117-119 | the left-to-right comma insertion equals grouping by threes from the right |
| TextFormat.GroupProperties | js/utils/Helpers.js:117-119 | grouped digits have a leading group of 1-3 digits, later groups of exactly 3, no leading comma, and deleting the commas gives back the digits |
| TextFormat.StripAppend | js/utils/Helpers.js:117-119 | deleting commas distributes over concatenation |
| TextFormat.FormatNumber | js/utils/Helpers.js:117-119 | for any integer the formatted text has a minus sign exactly for negatives, is well grouped, and parses back to the number once commas are deleted |
| CollisionSystem.CalculateOverlap | js/CollisionSystem.js:67-83 | 0 when the centres are at least the half-extent sum apart; otherwise magnitude is that sum minus the centre distance, positive exactly when the second centre is after the first |
| CollisionSystem.AxisOverlapByCentres | js/CollisionSystem.js:20-31 | the strict interval-overlap test agrees with the centre-distance test |
| CollisionSystem.CheckCollision | js/CollisionSystem.js:18-60 | collided iff the rectangles overlap strictly on both axes; a miss has no side and zero penetration; the side is the axis of strictly smaller overlap (ties vertical) with the overlap's sign choosing left/top or right/bottom |
| CollisionSystem.RectIntersectAgrees | js/utils/Helpers.js:329-334 | `rectIntersect` agrees with `checkCollision(...).collided` |
| CollisionSystem.EdgeTouchingDoesNotCollide | js/CollisionSystem.js:20-31 | two rectangles sharing only an edge do not collide |
| CollisionSystem.CheckCircleRectCollision | js/CollisionSystem.js:91-120 | collided iff the squared distance to the clamped point is at most r squared, boundary inclusive; a miss has no side; a hit's penetration is exactly r minus the distance to the clamped point and lies in [0, r]; the left, right, top and bottom sides each put the centre on or outside the matching edge, and `inside` is reported exactly for a centre strictly inside; a hit's side is the one `SideOf` picks, so the left/right/top/bottom precedence at corners carries over |
| CollisionSystem.CircleRectTestsAgree | js/CollisionSystem.js:91-120 | the helper's circle-rect test and the collision system's agree on every input |
| CollisionSystem.SideOf | js/CollisionSystem.js:116-120 | a left or right side means the centre is at or beyond that vertical edge, top or bottom likewise for the horizontal edges, and `inside` exactly when the centre is strictly inside; for a rectangle of positive size each side holds exactly on its region in check order: left iff the centre is at or left of the left edge, right iff it is past the left edge and at or right of the right edge, top iff it is strictly between the vertical edges and at or above the top, bottom iff it is strictly between the vertical edges, below the top and at or below the bottom, so a corner goes to left or right before top or bottom |
| CollisionSystem.IsPointInRect | js/CollisionSystem.js:171-176 | only a rectangle of non-negative size contains points; for one, a point is inside exactly when clamping it into the rectangle leaves it where it is |
| CollisionSystem.IsPointInCircle | js/CollisionSystem.js:185-189 | the centre is always inside, and an inside point is within the radius of the centre on each axis |
| CollisionSystem.CheckCircleCircleCollision | js/CollisionSystem.js:137-160 | collided iff the squared centre distance is at most the squared radius sum; coincident centres give normal (1,0); otherwise the normal is the unit vector that scales to the centre difference; a hit's penetration is exactly the radius sum minus the centre distance, and a miss has penetration 0 and a zero normal |
| CollisionSystem.CheckLineOfSight | js/CollisionSystem.js:200-229 | the sampling loop returns exactly the reference line-of-sight: clear with no obstacles or zero length, otherwise clear iff none of the ceil(length) samples lies in an obstacle under the inclusive point test |
| CollisionSystem.StartPointSampled | js/CollisionSystem.js:200-229 | an obstacle containing the start point always blocks the sight line |
| CollisionSystem.EndPointNotSampled | js/CollisionSystem.js:200-229 | an obstacle containing only the end point does not block it |
| CollisionSystem.ResolveRectCollisionAsWritten | js/CollisionSystem.js:256-277 | the right and bottom branches add the positive penetration to the position |
| CollisionSystem.ResolveRightDeepens | js/CollisionSystem.js:256-277 | for two overlapping rectangles the right branch leaves them overlapping more deeply than before |
| CollisionSystem.ResolveRectCollision | js/CollisionSystem.js:256-277 | the corrected resolver moves the object back by the penetration on the reported axis and zeroes that velocity component |
| CollisionSystem.ResolveRectSeparates | js/CollisionSystem.js:256-277 | after the corrected resolver the same pair no longer collides |
| CollisionSystem.ResolveCircleCollision | js/CollisionSystem.js:286-321 | the sum of the two positions is preserved; with both velocities present their sum is preserved and no impulse applies when they separate along the normal |
| CollisionSystem.CircleImpulseRestitution | js/CollisionSystem.js:303-318 | for approaching bodies and a unit normal, the relative normal velocity is reversed and scaled by the restitution 0.8 |
| InputHandler.KeyMap | js/InputHandler.js:10-34 | left, right, up, down, jump and run are each produced by exactly their listed key codes (arrows or WASD, Space, either Shift) |
| InputHandler.KeyMapInverse | js/InputHandler.js:10-34 | the key table and its inverse agree and every action has at least one key |
| InputHandler.Create | js/InputHandler.js:5-60 | a new handler has no held keys, no one-shot flags and no touch or mouse press |
| InputHandler.Initialize | js/InputHandler.js:66-78 | every mapped action becomes released while swipe, mouse and touch state are kept |
| InputHandler.KeyDown | js/InputHandler.js:92-98 | an unmapped code changes nothing; a mapped one is held afterwards, and jump sets jumpPressed only if it was not already held |
| InputHandler.KeyUp | js/InputHandler.js:107-116 | an unmapped code changes nothing; a mapped one is released, and releasing jump sets jumpReleased |
| InputHandler.AutoRepeatDoesNotRetrigger | js/InputHandler.js:92-98 | a repeated Space keydown after an update does not raise jumpPressed again |
| InputHandler.KeyDownThenUp | js/InputHandler.js:92-116 | pressing then releasing a mapped key leaves the held set without that action |
| InputHandler.MouseMove | js/InputHandler.js:139-143 | only the mouse coordinates change |
| InputHandler.MouseDown | js/InputHandler.js:146-150 | the mouse becomes down and pressed; keys and touch are unchanged |
| InputHandler.MouseUp | js/InputHandler.js:153-157 | the mouse becomes up and released; keys and touch are unchanged |
| InputHandler.MouseLeave | js/InputHandler.js:160-162 | the mouse is no longer down; keys and touch are unchanged |
| InputHandler.TouchStart | js/InputHandler.js:173-189 | the touch starts and currently sits at the contact point, mirrored into the mouse as a press |
| InputHandler.TouchMove | js/InputHandler.js:192-206 | the touch's current point and the mouse move to the finger; while touching, a swipe is recorded exactly when the displacement from the start point exceeds the threshold along its dominant axis, holding the matching direction (and jump for an upward swipe); without a touch the keys are unchanged |
| InputHandler.TouchEnd | js/InputHandler.js:209-220 | touching ends with a zeroed start point and a mouse release, while keys (including a swipe-up jump) are not cleared |
| InputHandler.DetectSwipe | js/InputHandler.js:226-262 | without a touch nothing changes; horizontal branch only when abs(dx) > abs(dy), and passing plus or minus 30 sets the matching swipe flag; an upward swipe sets up, jump and jumpPressed |
| InputHandler.SwipeDirectionsExclusive | js/InputHandler.js:226-262 | one classification never sets both left and right nor both up and down |
| InputHandler.Update | js/InputHandler.js:289-301 | the one-shot jump, swipe and mouse press/release flags are cleared; held keys, mouse position and touch are untouched |
| InputHandler.UpdateIdempotent | js/InputHandler.js:289-301 | a second update in a row changes nothing |
| InputHandler.GetHorizontalInput | js/InputHandler.js:307-315 | the result is in {-1, 0, 1}: -1 iff left or swipe-left, 1 iff not that and right or swipe-right, so left wins |
| InputHandler.GetVerticalInput | js/InputHandler.js:317-321 | the result is in {-1, 0, 1}: -1 iff up or swipe-up, 1 iff not that and down or swipe-down, so up wins |
| InputHandler.IsJumpPressed | js/InputHandler.js:327-329 | a fresh keyboard jump press and an upward swipe each read as pressed, and nothing else does; an upward swipe also reads as an up input, so a press not flagged by a key came from such a swipe |
| InputHandler.IsJumpHeld | js/InputHandler.js:335-337 | held exactly when the action bound to Space or to ArrowUp is held; KeyW holds it too |
| InputHandler.JumpKeyEvents | js/InputHandler.js:86-122 | pressing Space, ArrowUp or KeyW makes the jump held; a first Space press makes it pressed; other keys leave "held" as it was; releasing Space and ArrowUp ends it |
| InputHandler.UpdateConsumesJump | js/InputHandler.js:289-301 | after an update the jump is never "pressed" but "held" is unchanged |
| InputHandler.Reset | js/InputHandler.js:422-441 | every key entry is false, touch coordinates are zero, and the mouse keeps only its position |
| InputHandler.ResetQuiet | js/InputHandler.js:422-441 | after a reset there is no direction input and no jump pressed or held |
| Player.Create | js/entities/Player.js:9-48 | a new player is at the given point, at rest, with full lives, alive and not invincible |
| Player.Jump | js/entities/Player.js:140-143 | velocity.y becomes the (negative) jump force, the player leaves the ground and is jumping; nothing else changes |
| Player.HandleInput | js/entities/Player.js:92-112 | non-zero input sets vx to input times speed and the facing from its sign; zero input applies friction and snaps small speeds to 0; a jump happens exactly when jump is pressed on the ground |
| Player.ApplyPhysics | js/entities/Player.js:120-135 | airborne: one unscaled gravity step capped at the maximum fall speed; grounded: vy becomes 0; position moves by velocity times time; the player always leaves with isOnGround false |
| Player.TickInvincibility | js/entities/Player.js:58-63 | when invincible the timer decreases by deltaTime and the flag clears once it reaches 0; otherwise nothing changes |
| Player.Update | js/entities/Player.js:56-85 | y ends at least the minimum height, the player is airborne, lives are unchanged, and invincibility only lapses as its timer dictates |
| Player.TakeDamage | js/entities/Player.js:178-191 | while invincible nothing changes and the result is false; otherwise lives drop by the damage, invincibility starts with the full timer, and the result is true iff the player is no longer alive |
| Player.DamageWindow | js/entities/Player.js:178-191 | a second hit right after a first hit is ignored |
| Player.DamageAfterWindow | js/entities/Player.js:58-63 | once an update has exhausted the timer the next hit counts again |
| Player.Reset | js/entities/Player.js:402-413 | a reset player is a fresh player at the new point, keeping only its facing, with lives restored to the maximum |
| Player.IsAlive | js/entities/Player.js:419-421 | an alive player has at least one life, and a player at full health is alive |
| Player.GetCollisionRect | js/entities/Player.js:427-434 | the rectangle is the player's position with the fixed positive player size |
| Player.TunnelsThroughPlatform | js/entities/Player.js:124-131 | a player at maximum fall speed moves past a 32-pixel platform in one 1000/60 ms step with no overlapping tick |
| Platform.KindOf | js/entities/Platform.js:16-33 | "moving", "breakable" and "jumpBoost" select their variant and every other type string is normal |
| Platform.Create | js/entities/Platform.js:12-33 | a new platform keeps the given geometry, records its original x, moves right first and is not breaking |
| Platform.FlagsExclusive | js/entities/Platform.js:16-33 | at most one of moving, breakable and jump-boost holds, and none for normal or unknown types |
| Platform.UpdateMovement | js/entities/Platform.js:93-104 | x stays within the move distance of the original x, and clamping at the upper or lower bound turns the direction to -1 or +1 |
| Platform.UpdateBreaking | js/entities/Platform.js:110-125 | the timer advances by deltaTime with progress = timer / duration; while progress < 1 the jitter keeps x within 2(1 - progress) of its origin; width and height become 0 exactly when the timer reaches the duration |
| Platform.ShakeBound | js/entities/Platform.js:115-119 | a jitter offset from a shake in [-1, 1] is bounded by twice the intensity |
| Platform.StartBreaking | js/entities/Platform.js:131-138 | no-op on non-breakable or already breaking platforms; otherwise it starts breaking with timer 0 and records the current x |
| Platform.StartBreakingIdempotent | js/entities/Platform.js:131-138 | starting to break twice is the same as once |
| Platform.Update | js/entities/Platform.js:71-83 | normal and jump-boost platforms are unchanged, movers only move, breakables only advance while breaking |
| Platform.CollapsedStaysCollapsed | js/entities/Platform.js:110-138 | nothing restores a zero width and height |
| Platform.Run | js/entities/Platform.js:71-83 | repeated updates keep the platform's variant and breaking flag |
| Platform.RunTimer | js/entities/Platform.js:110-114 | over any run of ticks the break timer grows by the sum of the ticks |
| Platform.CollapsesOnSchedule | js/entities/Platform.js:110-125 | after any run of non-negative ticks a breaking platform has collapsed iff the total elapsed time reached the break duration, never earlier |
| Platform.RunCollapsed | js/entities/Platform.js:110-125 | once collapsed a platform stays collapsed for every later run |
| Platform.GetCollisionRect | js/entities/Platform.js:286-293 | the rectangle is the current position and size |
| Platform.UpdateBounds | js/entities/Platform.js:143-148 | the bounds span the current position, width and height |
| Coin.Create | js/entities/Coin.js:9-35 | a new coin sits at the given point, uncollected, with no particles and all animation timers at 0 |
| Coin.Update | js/entities/Coin.js:41-67 | a collected coin only adds to its collection time and decays particles; an uncollected one bobs by sin times the bob amount and keeps sparkleTimer below the interval |
| Coin.RotationInRange | js/entities/Coin.js:53-66 | rotation stays in [0, 360) when it starts there and the increment is below 360 |
| Coin.Collect | js/entities/Coin.js:73-83 | an uncollected coin pays the coin value and starts its collection time at 0; a collected coin pays 0 and is unchanged |
| Coin.CollectPaysOnce | js/entities/Coin.js:73-83 | collecting twice pays once: the second call returns 0 |
| Coin.CollectedIsPermanent | js/entities/Coin.js:41-83 | a collected coin stays collected through updates and further collects |
| Coin.ShouldRemove | js/entities/Coin.js:239-241 | a removable coin was collected, has no particles left, and was collected more than 1000 ms ago |
| Coin.ActiveNeverRemoved | js/entities/Coin.js:239-241 | an uncollected coin is never removable, before or after an update |
| Coin.GetCollisionCircle | js/entities/Coin.js:211-217 | the circle is centred at (x, y + bobOffset) with the coin radius |
| Coin.CollisionCircleNearRest | js/entities/Coin.js:41-67 | after an update the circle's centre lies within the bob amount of the rest position |
| PhysicsEngine.DecayShrinks | js/PhysicsEngine.js:33-37 | applying a decay factor never increases the magnitude and keeps the sign |
| PhysicsEngine.UpdateEntity | js/PhysicsEngine.js:21-48 | airborne: gravity times deltaTime capped at maximum fall speed, air friction on vx; grounded: vy unchanged and any speed under 0.1 snaps to 0; position advances by the new velocity |
| PhysicsEngine.FallenVy | js/PhysicsEngine.js:23-30 | in the air the vertical speed never exceeds the maximum fall speed and is exactly the gravity-increased speed below it; on the ground it is untouched |
| PhysicsEngine.DampedVx | js/PhysicsEngine.js:33-42 | damping never increases the horizontal speed or flips its sign; in the air it is the air-decayed speed; on the ground it is 0 or at least 0.1 in size |
| PhysicsEngine.RestIsStable | js/PhysicsEngine.js:21-48 | a grounded body at rest does not move |
| PhysicsEngine.CheckBoundaries | js/PhysicsEngine.js:362-399 | afterwards y >= 0, and 0 <= x with x + width <= worldWidth whenever the body fits; each flag reports its edge, outOfBounds iff y > worldHeight; a clamped axis loses its velocity |
| PhysicsEngine.CheckBoundariesIdempotent | js/PhysicsEngine.js:362-399 | clamping an already clamped body moves it no further |
| PhysicsEngine.ResolveCollision | js/PhysicsEngine.js:90-117 | the player ends flush with the hit edge with that velocity component 0; only top sets isOnGround and clears isJumping |
| PhysicsEngine.ResolvedIsFlush | js/PhysicsEngine.js:90-117 | after resolution the same player-platform pair reports no collision |
| PhysicsEngine.HandlePlatformEffects | js/PhysicsEngine.js:141-158 | a top hit on a jump-boost launches the player at the boost force, a top hit on a breakable starts breaking, any other side does nothing |
| PhysicsEngine.SideFor | js/PhysicsEngine.js:93-97 | as written the reported side is used directly; corrected, it is read from the platform's viewpoint (the opposite side) |
| PhysicsEngine.Touch | js/PhysicsEngine.js:61-76 | a collapsed platform is skipped; the platform is only ever started breaking; lives and invincibility are untouched |
| PhysicsEngine.Sweep | js/PhysicsEngine.js:60-77 | every platform is visited with no early exit, each one is kept or started breaking, and a grounded result has vy 0 |
| PhysicsEngine.SweepSkipsCollapsed | js/PhysicsEngine.js:61-63 | a sweep over collapsed platforms changes nothing |
| PhysicsEngine.HandleCollisions | js/PhysicsEngine.js:56-82 | the landing trigger fires iff the player was airborne before and grounded after; the combo-reset path is never taken; platform list length is kept |
| PhysicsEngine.LandingFiresWheneverGrounded | js/PhysicsEngine.js:79-81 | because the player update always clears isOnGround, the landing trigger fires on every tick the player is supported, not once per contact |
| PhysicsEngine.BottomMeansAbove | js/CollisionSystem.js:41-42 | a "bottom" label on a player-vs-platform query means the player's centre is above the platform's centre |
| PhysicsEngine.LandingPushesThrough | js/PhysicsEngine.js:93-97 | a player falling onto a platform is placed below it, not on top |
| PhysicsEngine.AsWrittenCrossesCentre | js/PhysicsEngine.js:93-113 | whenever a player overlaps a platform from above, the as-written resolution moves its centre past the platform's |
| PhysicsEngine.LandingCorrected | js/PhysicsEngine.js:93-97 | with the side read from the platform's viewpoint, the falling player lands on the top edge and is grounded |
| PhysicsEngine.CorrectedMovesByPenetration | js/PhysicsEngine.js:93-113 | with the corrected reading the player moves back out by exactly the reported penetration |
| PhysicsEngine.FeetStrip | js/PhysicsEngine.js:233-238 | the probe is a player-wide strip just below the player's feet |
| PhysicsEngine.CheckGroundAsWritten | js/PhysicsEngine.js:231-250 | the truthy-object test makes the result true iff some platform has non-zero size, whatever the feet touch |
| PhysicsEngine.GroundedInMidAir | js/PhysicsEngine.js:231-250 | a player far above every platform is still reported grounded |
| PhysicsEngine.CheckGround | js/PhysicsEngine.js:231-250 | the corrected check holds iff the feet strip overlaps some non-collapsed platform |
| GameLoop.Create | js/GameLoop.js:5-36 | a new loop is stopped, unpaused, with nothing accumulated, the 1000/60 step and empty statistics |
| GameLoop.Start | js/GameLoop.js:41-52 | starting a running loop does nothing; otherwise it runs unpaused from the given time, keeping the accumulator |
| GameLoop.Stop | js/GameLoop.js:57-61 | the loop is neither running nor paused and nothing else changes |
| GameLoop.Pause | js/GameLoop.js:66-69 | only the paused flag is set |
| GameLoop.Resume | js/GameLoop.js:74-78 | it unpauses and stamps lastTime, keeping the accumulator |
| GameLoop.HandleResize | js/GameLoop.js:350-354 | it stamps lastTime and resets the accumulator to 0 |
| GameLoop.PauseResume | js/GameLoop.js:66-78 | pausing then resuming a running loop only moves lastTime |
| GameLoop.Drain | js/GameLoop.js:107-118 | the accumulator is ticks times step plus a remainder below one step, non-negative when it started so |
| GameLoop.DrainIsFloor | js/GameLoop.js:107-118 | the number of fixed steps drained is floor(accumulator / step) |
| GameLoop.DrainAny | js/GameLoop.js:107-118 | an infinite step drains nothing; a positive step leaves less than one step; a non-positive step spins forever iff the accumulator is at least the step |
| GameLoop.NonPositiveStepNeverDrains | js/GameLoop.js:110-118 | with a step <= 0 the loop guard stays true after any number of iterations |
| GameLoop.UpdateFps | js/GameLoop.js:139-147 | after a full second the frame count becomes the FPS and the window restarts; otherwise only the timer grows |
| GameLoop.SumWithin | js/GameLoop.js:266-286 | a history whose entries lie in [lo, hi] sums to between n·lo and n·hi |
| GameLoop.Mean | js/GameLoop.js:172-174 | the mean of a non-empty history lies within any bounds of its entries |
| GameLoop.Cap | js/GameLoop.js:155-163 | a history over 100 entries loses only its oldest; one within the cap is kept |
| GameLoop.UpdateStats | js/GameLoop.js:153-175 | frameTimes stays within 100 entries and ends with this frame, the other buffers lose at most one entry, min and max frame times bracket the new frame |
| GameLoop.MeanOrZero | js/GameLoop.js:266-286 | an empty buffer averages to 0 with no division; otherwise the average is bounded by the entries |
| GameLoop.GetStats | js/GameLoop.js:266-286 | the reported update and draw averages are 0 for empty buffers and otherwise bounded by their entries |
| GameLoop.SetTargetFpsAsWritten | js/GameLoop.js:318-321 | a positive fps gives step 1000/fps; fps = 0 gives an infinite step and a negative fps a negative step |
| GameLoop.SetTargetFps | js/GameLoop.js:318-321 | the guarded setter keeps a valid step valid: positive fps as written, otherwise the loop is unchanged |
| GameLoop.ClampDelta | js/GameLoop.js:94-98 | the delta is capped from above only |
| GameLoop.RunFrame | js/GameLoop.js:84-133 | no work when stopped or paused; otherwise lastTime is stamped, the step is kept, and each tick receives exactly the step with less than one step left; a valid step never hangs; one update record per tick |
| GameLoop.AtMostSixTicks | js/GameLoop.js:98-118 | from an accumulator in [0, step) one frame runs at most six updates at the default step |
| GameLoop.SixTicksReachable | js/GameLoop.js:98-118 | six updates in one frame do happen |
| GameLoop.NegativeDeltaAfterResume | js/GameLoop.js:76-107 | resuming with a later timestamp than the next frame drives the accumulator below 0 |
| GameLoop.UpdateHistoryGrows | js/GameLoop.js:107-163 | a frame running more than one tick lengthens the update-time buffer, so it is unbounded |
| GameLoop.ZeroTargetFreezes | js/GameLoop.js:318-321 | after setTargetFPS(0) a frame runs no update at all |
| GameLoop.NegativeTargetHangs | js/GameLoop.js:318-321 | after a negative target fps the next frame's drain never terminates |
| GameLoop.GuardedTargetKeepsDraining | js/GameLoop.js:318-321 | with the guard, a running loop's frame still completes for any requested fps |
| ScoreManager.Plus | js/managers/ScoreManager.js:37 | adding points is a number iff both operands are, and then the integer sum |
| ScoreManager.Scale | js/managers/ScoreManager.js:36 | scaling by the multiplier is the floor of the product, NaN staying NaN |
| ScoreManager.MultiplierFor | js/managers/ScoreManager.js:73-78 | the multiplier is 1 below 5, 1.5 from 5 to 9, 2 from 10 on |
| ScoreManager.Create | js/managers/ScoreManager.js:5-27 | a new manager has score 0, the saved high score, no combo and multiplier 1 |
| ScoreManager.UpdateCombo | js/managers/ScoreManager.js:66-85 | combo rises by 1, maxCombo stays at least combo, the timer restarts at the combo duration, the multiplier follows the new combo, and a combo of 3 unlocks its achievement |
| ScoreManager.CheckAchievements | js/managers/ScoreManager.js:187-193 | the first coin unlocks its achievement; achievements are never lost and nothing else changes |
| ScoreManager.AddScore | js/managers/ScoreManager.js:34-52 | the award is floor(points times the multiplier in force before the combo update) and is added to the score; the high score never falls and covers the current score |
| ScoreManager.AddCoin | js/managers/ScoreManager.js:57-61 | coinsCollected rises by exactly 1 and the coin value is scored through addScore |
| ScoreManager.ResetCombo | js/managers/ScoreManager.js:103-107 | combo, multiplier and timer go back to 0, 1, 0 and nothing else changes |
| ScoreManager.Update | js/managers/ScoreManager.js:91-98 | with no combo nothing changes; otherwise the timer counts down and reaching 0 resets the combo |
| ScoreManager.ComboExpires | js/managers/ScoreManager.js:66-107 | a hit followed by a tick longer than the combo duration resets the combo |
| ScoreManager.MultiplierLagsOneHit | js/managers/ScoreManager.js:34-40 | the fifth hit is still paid at multiplier 1, since the combo updates after the award |
| ScoreManager.NotANumberIsSticky | js/managers/ScoreManager.js:34-46 | once the score is NaN it stays NaN and the high score no longer moves |
| ScoreManager.GetTimeBonus | js/managers/ScoreManager.js:115-128 | a missing total time yields NaN; a non-positive one yields 0; otherwise the bonus is floor(remaining/total·1000), in [0, 1000], and 1000 for an untouched clock |
| ScoreManager.GetCoinBonus | js/managers/ScoreManager.js:136-155 | no coins gives 0; otherwise the bonus lies in [0, 500], is 500 with the perfect-level achievement for all coins, and 50 coins unlock the collector achievement |
| ScoreManager.CalculateLevelScore | js/managers/ScoreManager.js:162-181 | the total is the sum of the five parts; the perfect bonus is 1000 iff every coin was collected; a missing time limit makes the total NaN |
| ScoreManager.LevelAwardWithoutLimitIsNaN | js/managers/ScoreManager.js:162-169 | level stats without a time limit give a NaN time bonus and total |
| ScoreManager.LevelAwardWithLimitIsNumber | js/managers/ScoreManager.js:162-169 | with a time limit and a numeric score the total is a number |
| ScoreManager.ResetCurrentScore | js/managers/ScoreManager.js:226-233 | score, combo, multiplier and coins return to their initial values while high score and achievements are kept |
| ScoreManager.GetComboProgress | js/managers/ScoreManager.js:289-293 | progress lies in [0, 100] for non-negative combos and is 100 from combo 10 on |
| LevelManager.Get | js/managers/LevelManager.js:122-127 | reading a field of an object gives its value and any other read gives undefined |
| LevelManager.MissingField | js/managers/LevelManager.js:121-127 | nothing is missing iff every required field is defined; a reported field is required and undefined |
| LevelManager.Validate | js/managers/LevelManager.js:114-174 | the validator throws exactly on null or undefined input |
| LevelManager.ValidateLevelDataAsWritten | js/managers/LevelManager.js:151 | acceptance needs endPosition.y to be the string "number", so a numeric y is always rejected |
| LevelManager.ValidateLevelData | js/managers/LevelManager.js:114-174 | the corrected validator only accepts a numeric endPosition.y |
| LevelManager.ValidateLevelDataIsWellFormed | js/managers/LevelManager.js:114-174 | the corrected validator accepts iff all required fields are defined, id/width/height are positive numbers, both positions are numeric points, platforms and coins are arrays and enemies is absent or an array; it rejects every other non-null value |
| LevelManager.LevelJson | js/managers/LevelManager.js:191-230 | a typed level renders to an object carrying all eleven required fields |
| LevelManager.LevelJsonFields | js/managers/LevelManager.js:191-230 | the rendered fields hold the level's values with numeric positions and array lists |
| LevelManager.LevelJsonComplete | js/managers/LevelManager.js:115-127 | no required field is missing from a rendered level |
| LevelManager.AsWrittenRejectsEveryLevel | js/managers/LevelManager.js:151 | the as-written validator rejects every level descriptor with a numeric end point |
| LevelManager.CorrectedAcceptsLevel | js/managers/LevelManager.js:129-174 | the corrected validator accepts every level with positive id, width and height |
| LevelManager.Level1 | js/managers/LevelManager.js:191-230 | the first built-in level has id 1, positive size, 9 platforms, 8 coins and a 120 s limit |
| LevelManager.Level2 | js/managers/LevelManager.js:236-290 | the second level has id 2, positive size, 13 platforms, 12 coins and a 90 s limit |
| LevelManager.Level3 | js/managers/LevelManager.js:296-356 | the third level has id 3, positive size, 15 platforms, 14 coins and a 75 s limit |
| LevelManager.DefaultLevels | js/managers/LevelManager.js:179-185 | there are three default levels with ids 1, 2, 3 and positive sizes |
| LevelManager.DefaultLevelsValidation | js/managers/LevelManager.js:151-356 | every built-in level is rejected by the validator as written and accepted by the corrected one |
| LevelManager.Create | js/managers/LevelManager.js:5-22 | a new manager holds the default levels, no current level, the saved index and zero progress apart from the saved death count |
| LevelManager.Accepted | js/managers/LevelManager.js:61-107 | the loaded list contains exactly the file levels the validator accepts |
| LevelManager.AsWrittenAcceptsNothing | js/managers/LevelManager.js:61-151 | with the validator as written no well-typed file level is ever loaded |
| LevelManager.CorrectedAcceptsAll | js/managers/LevelManager.js:61-107 | with the corrected validator every well-sized file level is loaded, in order |
| LevelManager.CorrectedAcceptsEach | js/managers/LevelManager.js:61-107 | with the corrected validator each well-sized file level is accepted on its own |
| LevelManager.AcceptedAll | js/managers/LevelManager.js:61-107 | when the validator accepts every file, the loaded list is the file list itself, in order |
| LevelManager.Initialize | js/managers/LevelManager.js:28-56 | a valid saved index always yields a loaded current level, from the loaded files or else the defaults |
| LevelManager.AsWrittenAlwaysDefaults | js/managers/LevelManager.js:28-56 | as written, initialisation falls back to the built-in levels for every list of well-typed level files |
| LevelManager.CorrectedLoadsFiles | js/managers/LevelManager.js:28-56 | with the corrected validator, valid files replace the built-in levels and the saved level is loaded from them |
| LevelManager.LoadLevel | js/managers/LevelManager.js:363-377 | an index outside [0, length) fails; otherwise that level becomes current with 0 coins collected, 0 time and the level's coin count as total |
| LevelManager.IsLastLevel | js/managers/LevelManager.js:593-595 | when not last, the following level can be loaded; a loaded last level is the final one in the list |
| LevelManager.NextLevel | js/managers/LevelManager.js:383-396 | the result is true iff this is not the last level; then the next level is loaded, otherwise nothing changes |
| LevelManager.RestartLevel | js/managers/LevelManager.js:402-404 | restarting reloads the current index with fresh coin and time progress |
| LevelManager.Update | js/managers/LevelManager.js:454-458 | with a level loaded total time grows by deltaTime/1000; otherwise nothing changes |
| LevelManager.CollectCoin | js/managers/LevelManager.js:463-465 | exactly one coin is added and nothing else changes |
| LevelManager.IsLevelComplete | js/managers/LevelManager.js:478-489 | a complete level is loaded, has all its coins, and has not run out of time |
| LevelManager.IsTimeExpired | js/managers/LevelManager.js:495-499 | a level without a positive limit (or no level) never expires, and an expired one has no time left |
| LevelManager.CompleteExpiredExclusive | js/managers/LevelManager.js:478-499 | with a positive time limit, complete and expired are never both true |
| LevelManager.LastCoinCompletes | js/managers/LevelManager.js:463-489 | collecting the last coin before time runs out completes the level |
| LevelManager.GetRemainingTime | js/managers/LevelManager.js:505-511 | no level or no limit is unlimited; otherwise the remainder lies in [0, limit] for non-negative elapsed time |
| LevelManager.GetLevelStatsAsWritten | js/managers/LevelManager.js:441-448 | stats exist iff a level is loaded, carry no time limit, a non-negative remaining time and the coin counts |
| LevelManager.GetLevelStats | js/managers/LevelManager.js:441-448 | the corrected stats are the same with the level's time limit supplied, and their remaining time lies within it |
| LevelManager.Round | js/managers/LevelManager.js:430-432 | rounding gives the integer nearest to x, halves rounding up |
| LevelManager.GetLevelInfo | js/managers/LevelManager.js:418-435 | info exists iff a level is loaded; the percentage is 0 with no coins, in [0, 100] in general and 100 with every coin |
| LevelManager.GetCompletionPercentage | js/managers/LevelManager.js:517-529 | 0 with no level or no coins, otherwise in [0, 100] |
| Game.Create | js/Game.js:5-55 | a new game is on the menu with no player, platforms or coins, zero clocks and a stopped loop |
| Game.SetState | js/Game.js:766-772 | the new state is recorded with the old one as previous and the transition timer at 0; nothing else changes |
| Game.Pause | js/Game.js:199-207 | only a playing game pauses, pausing its loop too |
| Game.Resume | js/Game.js:212-220 | only a paused game resumes, unpausing the loop from the given time |
| Game.TogglePause | js/Game.js:225-231 | playing pauses, paused resumes, every other state is unchanged |
| Game.TogglePauseTwice | js/Game.js:199-231 | toggling twice from playing returns to playing |
| Game.GameOver | js/Game.js:723-739 | the game ends lost, idempotently, keeping player, score and levels |
| Game.Victory | js/Game.js:744-760 | the game ends won, idempotently, keeping player, score and levels |
| Game.EndingsIdempotent | js/Game.js:723-760 | calling gameOver or victory twice equals calling it once |
| Game.UpdateTransition | js/Game.js:504-513 | only the transition timer advances |
| Game.OrDefault | js/Game.js:300-310 | a missing or zero size falls back to the default |
| Game.BuildPlatform | js/Game.js:300-310 | a descriptor becomes a platform at its position, with default sizes for missing or zero ones and normal for a missing type |
| Game.ZeroWidthBecomesDefault | js/Game.js:300-310 | a zero width gives the default 128 |
| Game.LoadCurrentLevel | js/Game.js:293-342 | without a current level nothing loads; otherwise one platform per descriptor and one coin per coin descriptor, in order, and the player created or reset at the start point with full lives |
| Game.FirstLevelSpawnOverlapsStart | js/Game.js:325-335 | on level 1 the spawned player already overlaps the first platform |
| Game.SeenInput | js/Game.js:379 | as written the player reads the input after it was cleared, so jump is never pressed; corrected, it reads the frame's input |
| Game.Respawn | js/Game.js:401-413 | a respawned player is at the start point, at rest and invincible for 2000 ms; as written with full lives, corrected with the lives it had |
| Game.PlayerPhase | js/Game.js:377-415 | the input is consumed; a fatal fall ends the game through gameOver; otherwise only input and player change |
| Game.JumpLostAsWritten | js/Game.js:379-383 | as written, a grounded player with jump pressed does not jump |
| Game.JumpTakenCorrected | js/Game.js:379-383 | corrected, the same player jumps |
| Game.FallCostsNoLifeAsWritten | js/Game.js:392-415 | as written, a non-fatal fall leaves the player with full lives |
| Game.FallCostsOneLifeCorrected | js/Game.js:392-415 | corrected, a non-fatal fall costs exactly one life |
| Game.FullLivesNeverEndAsWritten | js/Game.js:386-415 | as written, a player with full lives never ends the game in the player phase |
| Game.LastLifeFallEndsCorrected | js/Game.js:386-415 | corrected, a fall on the last life ends the game |
| Game.UpdatePlatforms | js/Game.js:419-421 | each platform gets exactly its own update |
| Game.CountActive | js/Game.js:424-446 | the number of uncollected coins never exceeds the list length |
| Game.NoneActive | js/Game.js:424-446 | a list of collected coins has no active coin |
| Game.CoinLoop | js/Game.js:424-446 | each touched active coin is collected once: the score and the level progress both count exactly the coins collected, never more than were active; removal leaves only non-removable coins |
| Game.CollectedCoinsPayNothing | js/Game.js:424-446 | collected coins add nothing to score or progress |
| Game.CompleteLevel | js/Game.js:684-717 | only acts while playing; on the last level the game is won; otherwise the next level is loaded with fresh progress, one coin per level coin, and play continues; as written the level award makes the score NaN |
| Game.WorldPhase | js/Game.js:419-464 | platforms, coins, collisions and progress run without changing state, input, loop, current level or player presence |
| Game.EndChecks | js/Game.js:467-474 | an expired clock always ends lost; no completion and no expiry changes nothing |
| Game.CompletionBeatsTheClock | js/Game.js:467-474 | a completed level with a positive limit never ends lost in the same tick |
| Game.UpdatePlaying | js/Game.js:377-475 | the tick is the player phase, then the world phase and end checks unless the player phase already ended the game |
| Game.CoinsCountedOnce | js/Game.js:424-446 | in one tick the score's and the level's coin counts rise by the same amount |
| Game.Update | js/Game.js:348-370 | game time advances by exactly deltaTime in every state; playing runs the tick; paused, menu and level-complete change nothing else; lost and won only advance the transition timer |
| Game.PausedOnlyCountsTime | js/Game.js:348-370 | any number of ticks while paused only add to game time |
| Game.Ticks | js/Game.js:348-350 | each of n updates adds exactly its step to the game clock, whatever state the game is in or moves to |
| Game.Frame | js/GameLoop.js:84-133 | a stopped or paused loop leaves the game unchanged, a valid step always completes the frame, and a running frame hands the game to exactly the loop's ticks of fixed-step updates |
| Game.FrameAdvancesClock | js/GameLoop.js:107-118 | when the loop runs with a finite step, the game receives exactly the loop's tick count of updates at `timeStep` each, so its clock advances by ticks times `timeStep` |

## Left out

- Canvas rendering, the camera, the UI manager, sounds and every `draw*`/`render*` method: presentation only.
- Particle creation (`create*Particles`, `createSparkle`, jump and landing effects): particle lists are passed in as values.
- `localStorage` persistence and `fetch`: saved indices, high scores and the level files are arguments (`LevelManager.Create`, `LevelManager.Initialize`).
- A failed fetch in `loadLevelsFromJSON` is not modelled. It has the same outcome as an empty accepted list: the built-in levels.
- The sort of loaded levels by id is not modelled. Accepted file levels keep file order.
- LevelManager.Initialize receives only typed level descriptors (`LevelData`, rendered through `LevelJson` with a numeric `endPosition.y`). A file whose `endPosition.y` is literally the string "number" would pass the validator as written; the claims that every file is rejected cover well-typed files only.
- `async`/`await` in `Game` and `LevelManager` is modelled as plain sequential calls. A thrown error becomes `None`.
- Enemies are carried as opaque JSON values and never instantiated, as in the game itself.
- The `speed` field on level-3 moving platforms is ignored by the platform constructor, so the model ignores it too.
- `recordDeath`, `getCurrentLevel`, `getTotalLevels`, the debug switches, `getStats` of input and collision, and the history logs have no behaviour worth a contract.
- `js/main.js` and `fix.js` (bootstrap and debug tooling) are not part of this model.
- Floating point: numbers are exact reals. `Math.round` is `floor(x + 0.5)`. `sqrt`, `sin` and `pow` are abstract functions with the axioms named above.
- NaN appears only where a missing time limit yields it. No other NaN or Infinity arithmetic is modelled.
- Game.UpdatePlatforms: all platforms of one tick share a single shake value, where the game draws a fresh jitter per platform. Each jitter is bounded the same way.
- Game.Frame: the frame returns `None` when the drain would never end, rather than hanging.
- Game.CompleteLevel: the model loads the next level and returns to `Playing` within the same tick, so the remaining ticks of that frame play on the new level. In the game, `loadCurrentLevel` and `setState(PLAYING)` run only after `await levelManager.nextLevel()` (js/Game.js:703-710). The rest of that frame's ticks therefore run in the level-complete state on the old entities.
- Vector2.Normalize: the zero-length case is stated only for the zero vector and for a length of 0, not as "length 0 iff zero vector".
- PhysicsEngine.HandleCollisions: the landing trigger is modelled as a flag. The effect it triggers is visual and left out.
- GameLoop.RunFrame: `requestAnimationFrame` rescheduling and the draw call are left out. Update and draw durations are arguments.

## Findings

| source | as written | input that shows it | evidently intended | confidence | as-written member | corrected member |
|---|---|---|---|---|---|---|
| js/CollisionSystem.js:41-42 with js/PhysicsEngine.js:93-97 | `checkCollision(player, platform)` labels a player above the platform "bottom", and the resolver snaps a "bottom" hit below the platform | player (100, 400) falling at vy 5 onto platform (50, 450, 200, 32) | the player lands on the top edge and is grounded | not executed | PhysicsEngine.LandingPushesThrough | PhysicsEngine.LandingCorrected |
| js/CollisionSystem.js:256-277 | the right and bottom branches add the positive penetration, pushing further in (latent: no caller in the game reaches `resolveRectCollision`) | rectangles (0,0,10,10) and (5,0,10,10) | after resolving, the pair no longer overlaps | not executed | CollisionSystem.ResolveRightDeepens | CollisionSystem.ResolveRectSeparates |
| js/Game.js:379 with js/InputHandler.js:293 | `input.update()` clears `jumpPressed` before `player.update` reads it | a grounded, alive player with Space pressed since the last tick | the player jumps | not executed | Game.JumpLostAsWritten | Game.JumpTakenCorrected |
| js/managers/LevelManager.js:151 | `endPosition.y !== 'number'` compares the value, not its type | any of the three built-in levels, whose end y is 300, 200 or 100 (a number, never equal to the string 'number') | a numeric endPosition.y is accepted | not executed | LevelManager.AsWrittenRejectsEveryLevel | LevelManager.ValidateLevelDataIsWellFormed |
| js/entities/Player.js:406 with js/Game.js:401-413 | respawn calls `reset`, which restores full lives | a player with 3 lives falling below the level | a fall costs exactly one life and the last one ends the game | not executed | Game.FallCostsNoLifeAsWritten | Game.FallCostsOneLifeCorrected |
| js/PhysicsEngine.js:231-250 | the condition tests the collision result object, which is always truthy (latent: no caller in the game) | a player at (0, 0) and one standing platform at x = 500, y = 900, far from the feet strip | grounded only when the feet strip touches a platform | not executed | PhysicsEngine.GroundedInMidAir | PhysicsEngine.CheckGround |
| js/managers/LevelManager.js:441-448 with js/managers/ScoreManager.js:162-169 | the stats omit `timeLimit`, so the time bonus divides by undefined | completing any level | the time bonus uses the level's limit and the total is a number | not executed | ScoreManager.LevelAwardWithoutLimitIsNaN | ScoreManager.LevelAwardWithLimitIsNumber |
| js/GameLoop.js:318-321 | `setTargetFPS` divides 1000 by fps with no guard (latent: no caller in the game) | fps = -30 (the drain never ends) or fps = 0 (no updates ever) | non-positive rates are refused | not executed | GameLoop.NegativeTargetHangs | GameLoop.GuardedTargetKeepsDraining |

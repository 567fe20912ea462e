/**
 * js/InputHandler.js: the handler bodies of the keyboard, mouse and touch
 * listeners as pure functions of the input state, swipe classification,
 * the per-tick clearing of one-shot flags, and the queries.
 *
 * Listener registration, `preventDefault` and the input history are not
 * modelled. Mouse and touch coordinates are passed in already relative to the
 * canvas (the source subtracts the canvas rectangle's offset).
 */
module InputHandler {
  import opened Wrappers
  import Helpers

  /** The action names of `keyMap`. */
  datatype Action = Left | Right | Up | Down | Jump | Run | Pause | Menu | Restart | Mute | Fullscreen | Help | Debug

  /** `keyMap`: the key code of a keyboard event to its action, if any. */
  function KeyMap(code: string): (a: Option<Action>)
    ensures a == Some(Left) <==> code == "ArrowLeft" || code == "KeyA"
    ensures a == Some(Right) <==> code == "ArrowRight" || code == "KeyD"
    ensures a == Some(Up) <==> code == "ArrowUp" || code == "KeyW"
    ensures a == Some(Down) <==> code == "ArrowDown" || code == "KeyS"
    ensures a == Some(Jump) <==> code == "Space"
    ensures a == Some(Run) <==> code == "ShiftLeft" || code == "ShiftRight"
  {
    match code
    case "ArrowLeft" => Some(Left)
    case "ArrowRight" => Some(Right)
    case "ArrowUp" => Some(Up)
    case "ArrowDown" => Some(Down)
    case "KeyA" => Some(Left)
    case "KeyD" => Some(Right)
    case "KeyW" => Some(Up)
    case "KeyS" => Some(Down)
    case "Space" => Some(Jump)
    case "ShiftLeft" => Some(Run)
    case "ShiftRight" => Some(Run)
    case "KeyP" => Some(Pause)
    case "Escape" => Some(Menu)
    case "KeyR" => Some(Restart)
    case "KeyM" => Some(Mute)
    case "KeyF" => Some(Fullscreen)
    case "KeyH" => Some(Help)
    case "KeyC" => Some(Debug)
    case _ => None
  }

  /** The codes bound to each action: the inverse reading of the table. */
  function CodesFor(a: Action): set<string> {
    match a
    case Left => {"ArrowLeft", "KeyA"}
    case Right => {"ArrowRight", "KeyD"}
    case Up => {"ArrowUp", "KeyW"}
    case Down => {"ArrowDown", "KeyS"}
    case Jump => {"Space"}
    case Run => {"ShiftLeft", "ShiftRight"}
    case Pause => {"KeyP"}
    case Menu => {"Escape"}
    case Restart => {"KeyR"}
    case Mute => {"KeyM"}
    case Fullscreen => {"KeyF"}
    case Help => {"KeyH"}
    case Debug => {"KeyC"}
  }

  /** Every action is bound, and a code maps to an action exactly when it is one of its codes. */
  lemma KeyMapInverse(code: string, a: Action)
    ensures KeyMap(code) == Some(a) <==> code in CodesFor(a)
    ensures CodesFor(a) != {}
  {
  }

  /**
   * The `keys` object. A held action is one whose entry is `true`; an
   * absent entry reads as `undefined`, which every query treats like
   * `false`, so the set of held actions is all that matters.
   */
  datatype Keys = Keys(
    held: set<Action>,
    jumpPressed: bool,
    jumpReleased: bool,
    swipeLeft: bool,
    swipeRight: bool,
    swipeUp: bool,
    swipeDown: bool)

  datatype Mouse = Mouse(x: real, y: real, isDown: bool, isPressed: bool, isReleased: bool)

  datatype Touch = Touch(startX: real, startY: real, currentX: real, currentY: real, isTouching: bool)

  datatype Input = Input(keys: Keys, mouse: Mouse, touch: Touch)

  /** The minimum travel, in pixels, for a touch movement to count as a swipe. */
  const SwipeThreshold: real := 30.0

  /** The state right after the constructor (which calls `initialize`). */
  function Create(): (s: Input)
    ensures s.keys.held == {} && !s.keys.jumpPressed && !s.keys.jumpReleased
    ensures !s.keys.swipeLeft && !s.keys.swipeRight && !s.keys.swipeUp && !s.keys.swipeDown
    ensures !s.touch.isTouching && !s.mouse.isDown
  {
    Initialize(Input(Keys({}, false, false, false, false, false, false),
                     Mouse(0.0, 0.0, false, false, false),
                     Touch(0.0, 0.0, 0.0, 0.0, false)))
  }

  /**
   * `initialize`: every mapped action becomes released and both jump edge
   * flags are cleared; swipe flags, mouse and touch are left as they are.
   */
  function Initialize(s: Input): (r: Input)
    ensures r.keys.held == {} && !r.keys.jumpPressed && !r.keys.jumpReleased
    ensures r.keys.swipeLeft == s.keys.swipeLeft && r.keys.swipeRight == s.keys.swipeRight
    ensures r.keys.swipeUp == s.keys.swipeUp && r.keys.swipeDown == s.keys.swipeDown
    ensures r.mouse == s.mouse && r.touch == s.touch
  {
    s.(keys := s.keys.(held := {}, jumpPressed := false, jumpReleased := false))
  }

  /**
   * The `keydown` handler: an unmapped code changes nothing; a mapped one
   * marks its action held, and a jump that was not already held also
   * raises `jumpPressed`.
   */
  function KeyDown(s: Input, code: string): (r: Input)
    ensures KeyMap(code).None? ==> r == s
    ensures KeyMap(code).Some? ==>
              && r.keys.held == s.keys.held + {KeyMap(code).value}
              && r.keys.jumpPressed == (s.keys.jumpPressed || (KeyMap(code).value == Jump && Jump !in s.keys.held))
              && r.keys.(held := s.keys.held, jumpPressed := s.keys.jumpPressed) == s.keys
              && r.mouse == s.mouse && r.touch == s.touch
  {
    match KeyMap(code)
    case None => s
    case Some(action) =>
      var pressed := if action == Jump && Jump !in s.keys.held then true else s.keys.jumpPressed;
      s.(keys := s.keys.(held := s.keys.held + {action}, jumpPressed := pressed))
  }

  /**
   * The `keyup` handler: an unmapped code changes nothing; a mapped one
   * releases its action, and releasing jump raises `jumpReleased`.
   */
  function KeyUp(s: Input, code: string): (r: Input)
    ensures KeyMap(code).None? ==> r == s
    ensures KeyMap(code).Some? ==>
              && r.keys.held == s.keys.held - {KeyMap(code).value}
              && r.keys.jumpReleased == (s.keys.jumpReleased || KeyMap(code).value == Jump)
              && r.keys.(held := s.keys.held, jumpReleased := s.keys.jumpReleased) == s.keys
              && r.mouse == s.mouse && r.touch == s.touch
  {
    match KeyMap(code)
    case None => s
    case Some(action) =>
      var released := if action == Jump then true else s.keys.jumpReleased;
      s.(keys := s.keys.(held := s.keys.held - {action}, jumpReleased := released))
  }

  /**
   * Keyboard auto-repeat sends further `keydown` events for a held key;
   * once `update` has consumed the first press, a repeated jump keydown
   * does not raise `jumpPressed` again.
   */
  lemma AutoRepeatDoesNotRetrigger(s: Input)
    ensures var once := Update(KeyDown(s, "Space"));
            !KeyDown(once, "Space").keys.jumpPressed && !IsJumpPressed(KeyDown(once, "Space"))
  {
  }

  /** Pressing then releasing a key leaves its action released and other keys as they were. */
  lemma KeyDownThenUp(s: Input, code: string)
    requires KeyMap(code).Some?
    ensures KeyUp(KeyDown(s, code), code).keys.held == s.keys.held - {KeyMap(code).value}
  {
  }

  function MouseMove(s: Input, x: real, y: real): (r: Input)
    ensures r.mouse.x == x && r.mouse.y == y
    ensures r.keys == s.keys && r.touch == s.touch
    ensures r.mouse.(x := s.mouse.x, y := s.mouse.y) == s.mouse
  {
    s.(mouse := s.mouse.(x := x, y := y))
  }

  function MouseDown(s: Input): (r: Input)
    ensures r.mouse.isDown && r.mouse.isPressed
    ensures r.keys == s.keys && r.touch == s.touch
  {
    s.(mouse := s.mouse.(isDown := true, isPressed := true))
  }

  function MouseUp(s: Input): (r: Input)
    ensures !r.mouse.isDown && r.mouse.isReleased
    ensures r.keys == s.keys && r.touch == s.touch
  {
    s.(mouse := s.mouse.(isDown := false, isReleased := true))
  }

  function MouseLeave(s: Input): (r: Input)
    ensures !r.mouse.isDown
    ensures r.keys == s.keys && r.touch == s.touch
  {
    s.(mouse := s.mouse.(isDown := false))
  }

  /** `touchstart`: the touch begins where the finger is, and is also a mouse press there. */
  function TouchStart(s: Input, x: real, y: real): (r: Input)
    ensures r.touch == Touch(x, y, x, y, true)
    ensures r.mouse == s.mouse.(x := x, y := y, isDown := true, isPressed := true)
    ensures r.keys == s.keys
  {
    s.(touch := Touch(x, y, x, y, true),
       mouse := s.mouse.(x := x, y := y, isDown := true, isPressed := true))
  }

  /**
   * `touchmove`: the current point and the mouse follow the finger; while
   * touching, the swipe is classified by the displacement from the start
   * point, otherwise the keys are left alone.
   */
  function TouchMove(s: Input, x: real, y: real): (r: Input)
    ensures r.touch == s.touch.(currentX := x, currentY := y)
    ensures r.mouse == s.mouse.(x := x, y := y)
    ensures !s.touch.isTouching ==> r.keys == s.keys
    ensures s.touch.isTouching ==>
              var dx := x - s.touch.startX;
              var dy := y - s.touch.startY;
              var horizontal := Helpers.Abs(dx) > Helpers.Abs(dy);
              && (r.keys.swipeRight <==> horizontal && dx > SwipeThreshold)
              && (r.keys.swipeLeft <==> horizontal && dx < -SwipeThreshold)
              && (r.keys.swipeDown <==> !horizontal && dy > SwipeThreshold)
              && (r.keys.swipeUp <==> !horizontal && dy < -SwipeThreshold)
              && (r.keys.swipeRight ==> Right in r.keys.held && Left !in r.keys.held)
              && (r.keys.swipeLeft ==> Left in r.keys.held && Right !in r.keys.held)
              && (r.keys.swipeUp ==> Up in r.keys.held && Jump in r.keys.held && r.keys.jumpPressed)
              && (r.keys.swipeDown ==> Down in r.keys.held)
  {
    var moved := s.(touch := s.touch.(currentX := x, currentY := y), mouse := s.mouse.(x := x, y := y));
    DetectSwipe(moved)
  }

  /**
   * `touchend`: the touch stops and its start point is zeroed, but the keys
   * a swipe set (left, right, up, down, jump) stay held.
   */
  function TouchEnd(s: Input): (r: Input)
    ensures !r.touch.isTouching && r.touch.startX == 0.0 && r.touch.startY == 0.0
    ensures !r.mouse.isDown && r.mouse.isReleased
    ensures r.keys == s.keys
  {
    s.(touch := s.touch.(isTouching := false, startX := 0.0, startY := 0.0),
       mouse := s.mouse.(isDown := false, isReleased := true))
  }

  /**
   * `detectSwipe`: only while touching. All four swipe flags are cleared,
   * then the dominant axis decides: a horizontal swipe beyond the
   * threshold holds exactly one of left/right; an upward one holds up and
   * jump and raises `jumpPressed`; a downward one holds down.
   */
  function DetectSwipe(s: Input): (r: Input)
    ensures !s.touch.isTouching ==> r == s
    ensures r.mouse == s.mouse && r.touch == s.touch
    ensures s.touch.isTouching ==>
              var dx := s.touch.currentX - s.touch.startX;
              var dy := s.touch.currentY - s.touch.startY;
              var horizontal := Helpers.Abs(dx) > Helpers.Abs(dy);
              && (r.keys.swipeRight <==> horizontal && dx > SwipeThreshold)
              && (r.keys.swipeLeft <==> horizontal && dx < -SwipeThreshold)
              && (r.keys.swipeDown <==> !horizontal && dy > SwipeThreshold)
              && (r.keys.swipeUp <==> !horizontal && dy < -SwipeThreshold)
              && (r.keys.swipeRight ==> Right in r.keys.held && Left !in r.keys.held)
              && (r.keys.swipeLeft ==> Left in r.keys.held && Right !in r.keys.held)
              && (r.keys.swipeUp ==> Up in r.keys.held && Jump in r.keys.held && r.keys.jumpPressed)
              && (r.keys.swipeDown ==> Down in r.keys.held)
              && (!r.keys.swipeUp ==> r.keys.jumpPressed == s.keys.jumpPressed)
              && r.keys.jumpReleased == s.keys.jumpReleased
  {
    if !s.touch.isTouching then s
    else
      var dx := s.touch.currentX - s.touch.startX;
      var dy := s.touch.currentY - s.touch.startY;
      var k := s.keys.(swipeLeft := false, swipeRight := false, swipeUp := false, swipeDown := false);
      var k' :=
        if Helpers.Abs(dx) > Helpers.Abs(dy) then
          if dx > SwipeThreshold then k.(swipeRight := true, held := k.held + {Right} - {Left})
          else if dx < -SwipeThreshold then k.(swipeLeft := true, held := k.held + {Left} - {Right})
          else k
        else
          if dy > SwipeThreshold then k.(swipeDown := true, held := k.held + {Down})
          else if dy < -SwipeThreshold then k.(swipeUp := true, held := k.held + {Up, Jump}, jumpPressed := true)
          else k;
      s.(keys := k')
  }

  /** At most one swipe direction is ever recorded. */
  lemma SwipeDirectionsExclusive(s: Input)
    requires s.touch.isTouching
    ensures var k := DetectSwipe(s).keys;
            (if k.swipeLeft then 1 else 0) + (if k.swipeRight then 1 else 0)
            + (if k.swipeUp then 1 else 0) + (if k.swipeDown then 1 else 0) <= 1
  {
  }

  /**
   * `update`: clears the one-shot flags (mouse press/release, jump
   * press/release, the four swipes) and leaves held keys alone.
   */
  function Update(s: Input): (r: Input)
    ensures r.keys.held == s.keys.held
    ensures !r.keys.jumpPressed && !r.keys.jumpReleased
    ensures !r.keys.swipeLeft && !r.keys.swipeRight && !r.keys.swipeUp && !r.keys.swipeDown
    ensures !r.mouse.isPressed && !r.mouse.isReleased
    ensures r.mouse.(isPressed := s.mouse.isPressed, isReleased := s.mouse.isReleased) == s.mouse
    ensures r.touch == s.touch
  {
    s.(keys := Keys(s.keys.held, false, false, false, false, false, false),
       mouse := s.mouse.(isPressed := false, isReleased := false))
  }

  /** Clearing the one-shot flags twice is the same as once. */
  lemma UpdateIdempotent(s: Input)
    ensures Update(Update(s)) == Update(s)
  {
  }

  /** `getHorizontalInput`: -1 for left, 1 for right, 0 for neither; left wins when both are held. */
  function GetHorizontalInput(s: Input): (h: int)
    ensures h == -1 || h == 0 || h == 1
    ensures h == -1 <==> Left in s.keys.held || s.keys.swipeLeft
    ensures h == 1 <==> !(Left in s.keys.held || s.keys.swipeLeft) && (Right in s.keys.held || s.keys.swipeRight)
  {
    if Left in s.keys.held || s.keys.swipeLeft then -1
    else if Right in s.keys.held || s.keys.swipeRight then 1
    else 0
  }

  /** `getVerticalInput`: -1 for up, 1 for down, 0 for neither; up wins when both are held. */
  function GetVerticalInput(s: Input): (v: int)
    ensures v == -1 || v == 0 || v == 1
    ensures v == -1 <==> Up in s.keys.held || s.keys.swipeUp
    ensures v == 1 <==> !(Up in s.keys.held || s.keys.swipeUp) && (Down in s.keys.held || s.keys.swipeDown)
  {
    if Up in s.keys.held || s.keys.swipeUp then -1
    else if Down in s.keys.held || s.keys.swipeDown then 1
    else 0
  }

  /**
   * `isJumpPressed`: a fresh jump keydown or an upward swipe. A press that
   * did not come from the keyboard is a swipe, which also reads as "up".
   */
  function IsJumpPressed(s: Input): (b: bool)
    ensures s.keys.jumpPressed ==> b
    ensures s.keys.swipeUp ==> b && GetVerticalInput(s) == -1
    ensures !s.keys.jumpPressed && !s.keys.swipeUp ==> !b
    ensures b && !s.keys.jumpPressed ==> GetVerticalInput(s) == -1
  {
    s.keys.jumpPressed || s.keys.swipeUp
  }

  /** `isJumpHeld`: the action of Space, ArrowUp or KeyW is held. */
  function IsJumpHeld(s: Input): (b: bool)
    ensures b <==> KeyMap("Space").value in s.keys.held || KeyMap("ArrowUp").value in s.keys.held
    ensures KeyMap("KeyW").value in s.keys.held ==> b
  {
    Jump in s.keys.held || Up in s.keys.held
  }

  /**
   * Which key events reach the jump queries: Space, ArrowUp and KeyW make
   * the jump held, a first Space press makes it pressed, any other mapped
   * key leaves "held" as it was, and releasing Space and ArrowUp ends it.
   */
  lemma JumpKeyEvents(s: Input, code: string)
    ensures code == "Space" || code == "ArrowUp" || code == "KeyW" ==> IsJumpHeld(KeyDown(s, code))
    ensures code == "Space" && !IsJumpHeld(s) ==> IsJumpPressed(KeyDown(s, code))
    ensures !(code == "Space" || code == "ArrowUp" || code == "KeyW") ==> (IsJumpHeld(KeyDown(s, code)) <==> IsJumpHeld(s))
    ensures !IsJumpHeld(KeyUp(KeyUp(s, "Space"), "ArrowUp"))
  {
  }

  /** After `update`, no jump press is visible until the next keydown or swipe. */
  lemma UpdateConsumesJump(s: Input)
    ensures !IsJumpPressed(Update(s))
    ensures IsJumpHeld(Update(s)) == IsJumpHeld(s)
  {
  }

  /**
   * `reset`: every key entry becomes false, the mouse buttons are
   * released and the touch is cleared and zeroed; the mouse position is
   * kept.
   */
  function Reset(s: Input): (r: Input)
    ensures r.keys == Keys({}, false, false, false, false, false, false)
    ensures r.touch == Touch(0.0, 0.0, 0.0, 0.0, false)
    ensures r.mouse == Mouse(s.mouse.x, s.mouse.y, false, false, false)
  {
    Input(Keys({}, false, false, false, false, false, false),
          Mouse(s.mouse.x, s.mouse.y, false, false, false),
          Touch(0.0, 0.0, 0.0, 0.0, false))
  }

  /** After `reset` every query reports no input. */
  lemma ResetQuiet(s: Input)
    ensures GetHorizontalInput(Reset(s)) == 0 && GetVerticalInput(Reset(s)) == 0
    ensures !IsJumpPressed(Reset(s)) && !IsJumpHeld(Reset(s))
  {
  }
}

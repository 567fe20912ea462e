/**
 * js/managers/LevelManager.js: the level descriptors, their validation,
 * the current level and the coin and time progress on it.
 *
 * Descriptors arrive as parsed JSON, so the validator works on `JsValue`;
 * the three built-in levels are typed `LevelData` records with a JSON
 * rendering. Fetching level files, `localStorage` and the best-time
 * bookkeeping are not modelled; `async` methods are plain calls, and a
 * thrown error is `None`.
 */
module LevelManager {
  import opened Wrappers
  import ScoreManager
  import Helpers

  // ---------------------------------------------------------------------
  // Parsed JSON and validateLevelData.
  // ---------------------------------------------------------------------

  /**
   * Property names. The ones the level code reads are constructors; any
   * other name is `Other`.
   */
  datatype Key =
    | Id | Name | Difficulty | Width | Height | StartPosition | EndPosition
    | Platforms | Coins | Enemies | TimeLimit | Description
    | X | Y | Type | PatrolRange
    | Other(name: string)

  datatype JsValue =
    | Undefined
    | Null
    | Bool(b: bool)
    | Number(n: real)
    | Str(s: string)
    | Array(items: seq<JsValue>)
    | Object(fields: map<Key, JsValue>)

  /** Property access `v[key]` on anything but `null`/`undefined`: missing keys read as `undefined`. */
  function Get(v: JsValue, key: Key): (r: JsValue)
    ensures v.Object? && key in v.fields ==> r == v.fields[key]
    ensures !(v.Object? && key in v.fields) ==> r == Undefined
  {
    if v.Object? && key in v.fields then v.fields[key] else Undefined
  }

  /** JavaScript truthiness. */
  predicate Truthy(v: JsValue) {
    match v
    case Undefined => false
    case Null => false
    case Bool(b) => b
    case Number(n) => n != 0.0
    case Str(s) => s != ""
    case Array(_) => true
    case Object(_) => true
  }

  const RequiredFields: seq<Key> :=
    [Id, Name, Difficulty, Width, Height, StartPosition, EndPosition,
     Platforms, Coins, TimeLimit, Description]

  /** The first of `fields` that `d` lacks, checked in order. */
  function MissingField(d: JsValue, fields: seq<Key>): (r: Option<Key>)
    ensures r.None? <==> forall i :: 0 <= i < |fields| ==> Get(d, fields[i]) != Undefined
    ensures r.Some? ==> r.value in fields && Get(d, r.value) == Undefined
    decreases |fields|
  {
    if |fields| == 0 then None
    else if Get(d, fields[0]) == Undefined then Some(fields[0])
    else
      var rest := MissingField(d, fields[1..]);
      assert forall i :: 1 <= i < |fields| ==> fields[i] == fields[1..][i - 1];
      rest
  }

  /** A number greater than zero, as the id, width and height must be. */
  predicate PositiveNumber(v: JsValue) {
    v.Number? && v.n > 0.0
  }

  /** A truthy value whose `x` and `y` are numbers. */
  predicate NumericPoint(v: JsValue) {
    Truthy(v) && Get(v, X).Number? && Get(v, Y).Number?
  }

  /** What validation concluded: valid, invalid, or a `TypeError` thrown by reading a property of `null`/`undefined`. */
  datatype Verdict = Accept | Reject | TypeError

  /**
   * The checks of `validateLevelData`, in order, with the test applied to
   * `endPosition.y` left open: the code as written compares the value
   * itself to the string `'number'`, where every other check asks for
   * `typeof … === 'number'`.
   */
  function Validate(d: JsValue, endYPasses: JsValue -> bool): (v: Verdict)
    ensures v == TypeError <==> d == Null || d == Undefined
  {
    if d == Null || d == Undefined then TypeError
    else if MissingField(d, RequiredFields).Some? then Reject
    else if !PositiveNumber(Get(d, Id)) then Reject
    else if !PositiveNumber(Get(d, Width)) then Reject
    else if !PositiveNumber(Get(d, Height)) then Reject
    else if !NumericPoint(Get(d, StartPosition)) then Reject
    else
      var end := Get(d, EndPosition);
      if !Truthy(end) || !Get(end, X).Number? || !endYPasses(Get(end, Y)) then Reject
      else if !Get(d, Platforms).Array? then Reject
      else if !Get(d, Coins).Array? then Reject
      else if Truthy(Get(d, Enemies)) && !Get(d, Enemies).Array? then Reject
      else Accept
  }

  /** Line 151 as written: `endPosition.y !== 'number'`. */
  function ValidateLevelDataAsWritten(d: JsValue): (v: Verdict)
    ensures v == Accept ==> Get(Get(d, EndPosition), Y) == Str("number")
    ensures Get(Get(d, EndPosition), Y).Number? ==> v != Accept
  {
    Validate(d, (y: JsValue) => y == Str("number"))
  }

  /** `validateLevelData` with line 151 testing the type, like its neighbours. */
  function ValidateLevelData(d: JsValue): (v: Verdict)
    ensures v == Accept ==> Get(Get(d, EndPosition), Y).Number?
  {
    Validate(d, (y: JsValue) => y.Number?)
  }

  /**
   * What a level descriptor must be: every required field present, a
   * positive numeric id, width and height, numeric start and end points,
   * platform and coin arrays, and enemies absent, falsy or an array.
   */
  predicate WellFormed(d: JsValue) {
    && (forall i :: 0 <= i < |RequiredFields| ==> Get(d, RequiredFields[i]) != Undefined)
    && PositiveNumber(Get(d, Id)) && PositiveNumber(Get(d, Width)) && PositiveNumber(Get(d, Height))
    && NumericPoint(Get(d, StartPosition)) && NumericPoint(Get(d, EndPosition))
    && Get(d, Platforms).Array? && Get(d, Coins).Array?
    && (!Truthy(Get(d, Enemies)) || Get(d, Enemies).Array?)
  }

  /** The corrected validator accepts exactly the well-formed descriptors. */
  lemma ValidateLevelDataIsWellFormed(d: JsValue)
    ensures ValidateLevelData(d) == Accept <==> WellFormed(d)
    ensures ValidateLevelData(d) == Reject <==> d != Null && d != Undefined && !WellFormed(d)
  {
  }

  // ---------------------------------------------------------------------
  // Typed descriptors and the built-in levels.
  // ---------------------------------------------------------------------

  datatype Point = Point(x: real, y: real)

  /** A platform entry; `width`, `height` and `type` may be missing. */
  datatype PlatformData = PlatformData(x: real, y: real, width: Option<real>, height: Option<real>, kind: Option<string>)

  datatype LevelData = LevelData(
    id: real,
    name: string,
    difficulty: string,
    width: real,
    height: real,
    startPosition: Point,
    endPosition: Point,
    platforms: seq<PlatformData>,
    coins: seq<Point>,
    enemies: seq<JsValue>,
    timeLimit: real,
    description: string)

  function PointJson(p: Point): JsValue {
    Object(map[X := Number(p.x), Y := Number(p.y)])
  }

  function OptionalNumber(v: Option<real>): JsValue {
    if v.Some? then Number(v.value) else Undefined
  }

  function PlatformJson(p: PlatformData): JsValue {
    var base := map[X := Number(p.x), Y := Number(p.y)];
    var withWidth := if p.width.Some? then base[Width := Number(p.width.value)] else base;
    var withHeight := if p.height.Some? then withWidth[Height := Number(p.height.value)] else withWidth;
    Object(if p.kind.Some? then withHeight[Type := Str(p.kind.value)] else withHeight)
  }

  /** The descriptor as the JSON object a level file holds. */
  function LevelJson(l: LevelData): (j: JsValue)
    ensures j.Object? && forall i :: 0 <= i < |RequiredFields| ==> RequiredFields[i] in j.fields
  {
    Object(map[
      Id := Number(l.id),
      Name := Str(l.name),
      Difficulty := Str(l.difficulty),
      Width := Number(l.width),
      Height := Number(l.height),
      StartPosition := PointJson(l.startPosition),
      EndPosition := PointJson(l.endPosition),
      Platforms := Array(seq(|l.platforms|, i requires 0 <= i < |l.platforms| => PlatformJson(l.platforms[i]))),
      Coins := Array(seq(|l.coins|, i requires 0 <= i < |l.coins| => PointJson(l.coins[i]))),
      Enemies := Array(l.enemies),
      TimeLimit := Number(l.timeLimit),
      Description := Str(l.description)])
  }

  /** Reading the fields of a rendered level gives back what was rendered. */
  lemma LevelJsonFields(l: LevelData)
    ensures var j := LevelJson(l);
            && Get(j, Id) == Number(l.id) && Get(j, Width) == Number(l.width) && Get(j, Height) == Number(l.height)
            && Get(j, StartPosition) == PointJson(l.startPosition) && Get(j, EndPosition) == PointJson(l.endPosition)
            && Get(j, Platforms).Array? && Get(j, Coins).Array? && Get(j, Enemies) == Array(l.enemies)
  {
  }

  /** A rendered level has every required field. */
  lemma LevelJsonComplete(l: LevelData)
    ensures MissingField(LevelJson(l), RequiredFields).None?
  {
    var j := LevelJson(l);
    LevelJsonFields(l);
    assert Get(j, Name) == Str(l.name) && Get(j, Difficulty) == Str(l.difficulty);
    assert Get(j, TimeLimit) == Number(l.timeLimit) && Get(j, Description) == Str(l.description);
    forall i | 0 <= i < |RequiredFields|
      ensures Get(j, RequiredFields[i]) != Undefined
    {
    }
  }

  /** As written, the validator turns down every level there is, since each has a numeric end point. */
  lemma AsWrittenRejectsEveryLevel(l: LevelData)
    ensures ValidateLevelDataAsWritten(LevelJson(l)) == Reject
  {
    var j := LevelJson(l);
    LevelJsonFields(l);
    assert Get(Get(j, EndPosition), Y) == Number(l.endPosition.y);
  }

  /** The corrected validator accepts any level with a positive id and size. */
  lemma CorrectedAcceptsLevel(l: LevelData)
    requires l.id > 0.0 && l.width > 0.0 && l.height > 0.0
    ensures ValidateLevelData(LevelJson(l)) == Accept
  {
    LevelJsonFields(l);
    LevelJsonComplete(l);
    PointJsonIsNumeric(l.startPosition);
    PointJsonIsNumeric(l.endPosition);
    AcceptsWellShaped(LevelJson(l));
  }

  /** A rendered point has numeric coordinates. */
  lemma PointJsonIsNumeric(p: Point)
    ensures NumericPoint(PointJson(p))
  {
    assert Get(PointJson(p), X) == Number(p.x) && Get(PointJson(p), Y) == Number(p.y);
  }

  /** The corrected validator accepts any object whose fields have the right shapes. */
  lemma AcceptsWellShaped(j: JsValue)
    requires MissingField(j, RequiredFields).None?
    requires PositiveNumber(Get(j, Id)) && PositiveNumber(Get(j, Width)) && PositiveNumber(Get(j, Height))
    requires NumericPoint(Get(j, StartPosition)) && NumericPoint(Get(j, EndPosition))
    requires Get(j, Platforms).Array? && Get(j, Coins).Array? && Get(j, Enemies).Array?
    ensures ValidateLevelData(j) == Accept
  {
    assert WellFormed(j);
    ValidateLevelDataIsWellFormed(j);
  }

  function Normal(x: real, y: real, width: real): PlatformData {
    PlatformData(x, y, Some(width), Some(32.0), Some("normal"))
  }

  function Typed(x: real, y: real, width: real, kind: string): PlatformData {
    PlatformData(x, y, Some(width), Some(32.0), Some(kind))
  }

  function Enemy(x: real, y: real, patrolRange: real): JsValue {
    Object(map[X := Number(x), Y := Number(y), Type := Str("patrol"), PatrolRange := Number(patrolRange)])
  }

  /** `createLevel1`: the tutorial. */
  function Level1(): (l: LevelData)
    ensures l.id == 1.0 && l.width > 0.0 && l.height > 0.0
    ensures |l.platforms| == 9 && |l.coins| == 8 && l.timeLimit == 120.0
  {
    LevelData(1.0, "Начало пути", "easy", 2000.0, 1000.0, Point(100.0, 400.0), Point(1800.0, 300.0),
      [Normal(50.0, 450.0, 200.0),
       Normal(300.0, 400.0, 150.0), Normal(500.0, 350.0, 150.0), Normal(700.0, 300.0, 150.0),
       Normal(900.0, 250.0, 150.0), Normal(1100.0, 200.0, 150.0),
       Normal(1300.0, 250.0, 200.0), Normal(1550.0, 300.0, 200.0), Normal(1750.0, 300.0, 200.0)],
      [Point(350.0, 320.0), Point(550.0, 270.0), Point(750.0, 220.0), Point(950.0, 170.0),
       Point(1150.0, 120.0), Point(1350.0, 170.0), Point(1600.0, 220.0), Point(1800.0, 220.0)],
      [], 120.0, "Изучите основы управления и соберите все монеты!")
  }

  /** `createLevel2`: moving and breakable platforms. */
  function Level2(): (l: LevelData)
    ensures l.id == 2.0 && l.width > 0.0 && l.height > 0.0
    ensures |l.platforms| == 13 && |l.coins| == 12 && l.timeLimit == 90.0
  {
    LevelData(2.0, "Горный путь", "normal", 2500.0, 1200.0, Point(100.0, 500.0), Point(2300.0, 200.0),
      [Normal(50.0, 550.0, 200.0),
       Normal(300.0, 500.0, 100.0), Normal(450.0, 450.0, 100.0), Normal(600.0, 400.0, 100.0), Normal(750.0, 350.0, 100.0),
       Typed(900.0, 400.0, 150.0, "moving"), Typed(1150.0, 350.0, 150.0, "moving"),
       Typed(1400.0, 300.0, 80.0, "breakable"), Typed(1520.0, 250.0, 80.0, "breakable"), Typed(1640.0, 200.0, 80.0, "breakable"),
       Normal(1800.0, 250.0, 200.0), Normal(2050.0, 200.0, 200.0), Normal(2250.0, 200.0, 200.0)],
      [Point(325.0, 420.0), Point(475.0, 370.0), Point(625.0, 320.0), Point(775.0, 270.0),
       Point(950.0, 320.0), Point(1200.0, 270.0), Point(1440.0, 220.0), Point(1560.0, 170.0),
       Point(1680.0, 120.0), Point(1850.0, 170.0), Point(2100.0, 120.0), Point(2300.0, 120.0)],
      [Enemy(1000.0, 300.0, 100.0), Enemy(1600.0, 100.0, 150.0)],
      90.0, "Будьте осторожны с движущимися и ломающимися платформами!")
  }

  /** `createLevel3`: jump boosts, fast movers and a breakable run; the movers' `speed: 3` is not read by anything. */
  function Level3(): (l: LevelData)
    ensures l.id == 3.0 && l.width > 0.0 && l.height > 0.0
    ensures |l.platforms| == 15 && |l.coins| == 14 && l.timeLimit == 75.0
  {
    LevelData(3.0, "Небесный вызов", "hard", 3000.0, 1500.0, Point(100.0, 600.0), Point(2800.0, 100.0),
      [Normal(50.0, 650.0, 200.0),
       Typed(300.0, 600.0, 80.0, "jumpBoost"), Normal(450.0, 550.0, 80.0),
       Typed(600.0, 500.0, 80.0, "jumpBoost"), Normal(750.0, 450.0, 80.0),
       Typed(900.0, 400.0, 120.0, "moving"), Typed(1150.0, 350.0, 120.0, "moving"), Typed(1400.0, 300.0, 120.0, "moving"),
       Typed(1650.0, 400.0, 100.0, "breakable"), Typed(1800.0, 350.0, 100.0, "breakable"),
       Typed(1950.0, 300.0, 100.0, "breakable"), Typed(2100.0, 250.0, 100.0, "breakable"),
       Typed(2300.0, 200.0, 150.0, "jumpBoost"), Normal(2500.0, 150.0, 150.0), Normal(2700.0, 100.0, 200.0)],
      [Point(325.0, 520.0), Point(475.0, 470.0), Point(625.0, 420.0), Point(775.0, 370.0),
       Point(950.0, 320.0), Point(1200.0, 270.0), Point(1450.0, 220.0), Point(1700.0, 320.0),
       Point(1850.0, 270.0), Point(2000.0, 220.0), Point(2150.0, 170.0), Point(2350.0, 120.0),
       Point(2550.0, 70.0), Point(2750.0, 20.0)],
      [Enemy(800.0, 350.0, 200.0), Enemy(1300.0, 200.0, 200.0), Enemy(1900.0, 250.0, 150.0), Enemy(2400.0, 100.0, 100.0)],
      75.0, "Испытайте свои навыки на самом сложном уровне!")
  }

  /** `createDefaultLevels`. */
  function DefaultLevels(): (ls: seq<LevelData>)
    ensures |ls| == 3
    ensures forall i :: 0 <= i < 3 ==> ls[i].id == (i + 1) as real && ls[i].width > 0.0 && ls[i].height > 0.0
  {
    [Level1(), Level2(), Level3()]
  }

  /** The built-in levels: every one is turned down as written and accepted once corrected. */
  lemma DefaultLevelsValidation()
    ensures forall i :: 0 <= i < |DefaultLevels()| ==>
              && ValidateLevelDataAsWritten(LevelJson(DefaultLevels()[i])) == Reject
              && ValidateLevelData(LevelJson(DefaultLevels()[i])) == Accept
  {
    var ls := DefaultLevels();
    forall i | 0 <= i < |ls|
      ensures ValidateLevelDataAsWritten(LevelJson(ls[i])) == Reject
      ensures ValidateLevelData(LevelJson(ls[i])) == Accept
    {
      AsWrittenRejectsEveryLevel(ls[i]);
      CorrectedAcceptsLevel(ls[i]);
    }
  }

  // ---------------------------------------------------------------------
  // Level progress.
  // ---------------------------------------------------------------------

  datatype Progress = Progress(totalCoins: int, collectedCoins: int, totalTime: real, deaths: int)

  datatype Manager = Manager(
    levels: seq<LevelData>,
    currentLevelIndex: int,
    currentLevel: Option<LevelData>,
    progress: Progress)

  /** The constructor followed by `createDefaultLevels`, with the saved level index and death count. */
  function Create(savedIndex: int, savedDeaths: int): (m: Manager)
    ensures m.levels == DefaultLevels() && m.currentLevel == None && m.currentLevelIndex == savedIndex
    ensures m.progress == Progress(0, 0, 0.0, savedDeaths)
  {
    Manager(DefaultLevels(), savedIndex, None, Progress(0, 0, 0.0, savedDeaths))
  }

  /** The level files whose descriptors `validate` accepts, in file order. */
  function Accepted(files: seq<LevelData>, validate: JsValue -> Verdict): (r: seq<LevelData>)
    ensures |r| <= |files|
    ensures forall l :: l in r <==> l in files && validate(LevelJson(l)) == Accept
    decreases |files|
  {
    if |files| == 0 then []
    else
      var rest := Accepted(files[1..], validate);
      assert forall l :: l in files <==> l == files[0] || l in files[1..];
      (if validate(LevelJson(files[0])) == Accept then [files[0]] else []) + rest
  }

  /**
   * As written, no well-typed level file gets through: every file whose
   * `endPosition.y` is a number is rejected.
   */
  lemma AsWrittenAcceptsNothing(files: seq<LevelData>)
    ensures Accepted(files, ValidateLevelDataAsWritten) == []
  {
    var r := Accepted(files, ValidateLevelDataAsWritten);
    if r != [] {
      assert r[0] in r;
      AsWrittenRejectsEveryLevel(r[0]);
    }
  }

  /** Corrected, every level with a positive id and size gets through, in order. */
  lemma {:induction false} CorrectedAcceptsAll(files: seq<LevelData>)
    requires forall i :: 0 <= i < |files| ==> files[i].id > 0.0 && files[i].width > 0.0 && files[i].height > 0.0
    ensures Accepted(files, ValidateLevelData) == files
  {
    CorrectedAcceptsEach(files);
    AcceptedAll(files, ValidateLevelData);
  }

  /** Corrected, every listed level with a positive id and size is accepted on its own. */
  lemma {:induction false} CorrectedAcceptsEach(files: seq<LevelData>)
    requires forall i :: 0 <= i < |files| ==> files[i].id > 0.0 && files[i].width > 0.0 && files[i].height > 0.0
    ensures forall l :: l in files ==> ValidateLevelData(LevelJson(l)) == Accept
    decreases |files|
  {
    if |files| > 0 {
      var head, tail := files[0], files[1..];
      assert forall i :: 0 <= i < |tail| ==> tail[i] == files[i + 1];
      CorrectedAcceptsEach(tail);
      CorrectedAcceptsLevel(head);
      assert forall l :: l in files ==> l == head || l in tail;
    }
  }

  /** When `validate` accepts every file, all of them get through, in order. */
  lemma {:induction false} AcceptedAll(files: seq<LevelData>, validate: JsValue -> Verdict)
    requires forall l :: l in files ==> validate(LevelJson(l)) == Accept
    ensures Accepted(files, validate) == files
    decreases |files|
  {
    if |files| > 0 {
      var head, tail := files[0], files[1..];
      assert forall l :: l in tail ==> l in files;
      AcceptedAll(tail, validate);
      AcceptedKeepsAll(head, tail, validate);
      assert [head] + tail == files;
    }
  }

  /** A file whose descriptor is accepted heads the accepted list. */
  lemma AcceptedKeepsHead(files: seq<LevelData>, validate: JsValue -> Verdict)
    requires |files| > 0 && validate(LevelJson(files[0])) == Accept
    ensures Accepted(files, validate) == [files[0]] + Accepted(files[1..], validate)
  {
  }

  /** An accepted head in front of a fully accepted tail keeps the whole list. */
  lemma AcceptedKeepsAll(head: LevelData, tail: seq<LevelData>, validate: JsValue -> Verdict)
    requires validate(LevelJson(head)) == Accept
    requires Accepted(tail, validate) == tail
    ensures Accepted([head] + tail, validate) == [head] + tail
  {
    var files := [head] + tail;
    assert files[0] == head && files[1..] == tail;
    AcceptedKeepsHead(files, validate);
  }

  /**
   * `initialize`, given the descriptors of a load in which every level
   * file was fetched: the accepted ones become the levels, or the built-in
   * levels when none is accepted, and the saved level is loaded; should
   * that throw, the built-in levels are installed and it is tried once
   * more.
   */
  function Initialize(m: Manager, files: seq<LevelData>, validate: JsValue -> Verdict): (r: Option<Manager>)
    ensures 0 <= m.currentLevelIndex < |DefaultLevels()| ==> r.Some?
    ensures r.Some? ==> r.value.currentLevelIndex == m.currentLevelIndex && r.value.currentLevel.Some?
    ensures r.Some? ==>
              r.value.levels == DefaultLevels()
              || (forall l :: l in r.value.levels <==> l in files && validate(LevelJson(l)) == Accept)
  {
    var accepted := Accepted(files, validate);
    var levels := if |accepted| == 0 then DefaultLevels() else accepted;
    match LoadLevel(m.(levels := levels), m.currentLevelIndex)
    case Some(loaded) => Some(loaded)
    case None => LoadLevel(m.(levels := DefaultLevels()), m.currentLevelIndex)
  }

  /** As written, the game runs on the built-in levels for every list of well-typed level files. */
  lemma AsWrittenAlwaysDefaults(m: Manager, files: seq<LevelData>)
    ensures var r := Initialize(m, files, ValidateLevelDataAsWritten);
            r.Some? ==> r.value.levels == DefaultLevels()
  {
    AsWrittenAcceptsNothing(files);
  }

  /** Corrected, well-formed level files replace the built-in levels. */
  lemma CorrectedLoadsFiles(m: Manager, files: seq<LevelData>)
    requires forall i :: 0 <= i < |files| ==> files[i].id > 0.0 && files[i].width > 0.0 && files[i].height > 0.0
    requires 0 <= m.currentLevelIndex < |files|
    ensures var r := Initialize(m, files, ValidateLevelData);
            r == LoadLevel(m.(levels := files), m.currentLevelIndex) && r.Some? && r.value.levels == files
  {
    CorrectedAcceptsAll(files);
  }

  /**
   * `loadLevel`: an index outside the level list throws; otherwise that
   * level becomes current and its coin and time progress restart.
   */
  function LoadLevel(m: Manager, levelIndex: int): (r: Option<Manager>)
    ensures r.None? <==> levelIndex < 0 || levelIndex >= |m.levels|
    ensures r.Some? ==>
              && r.value.currentLevelIndex == levelIndex
              && r.value.currentLevel == Some(m.levels[levelIndex])
              && r.value.progress == m.progress.(collectedCoins := 0, totalCoins := |m.levels[levelIndex].coins|, totalTime := 0.0)
              && r.value.levels == m.levels
  {
    if levelIndex < 0 || levelIndex >= |m.levels| then None
    else
      var level := m.levels[levelIndex];
      Some(m.(currentLevelIndex := levelIndex, currentLevel := Some(level),
              progress := m.progress.(collectedCoins := 0, totalCoins := |level.coins|, totalTime := 0.0)))
  }

  /**
   * `isLastLevel`: no level follows the current one. Otherwise the next
   * level can be loaded, and a last level that is loaded is the final file.
   */
  function IsLastLevel(m: Manager): (b: bool)
    ensures !b && NextIndexNotNegative(m) ==> LoadLevel(m, m.currentLevelIndex + 1).Some?
    ensures b && 0 <= m.currentLevelIndex < |m.levels| ==> m.currentLevelIndex == |m.levels| - 1
  {
    m.currentLevelIndex >= |m.levels| - 1
  }

  /**
   * The following index, `currentLevelIndex + 1`, is not negative, so
   * `nextLevel` cannot throw. The game only ever holds indices of 0 or more
   * (or -1 before the first load); the manager's `int` field allows lower
   * values, for which `loadLevel` throws.
   */
  predicate NextIndexNotNegative(m: Manager) {
    m.currentLevelIndex >= -1
  }

  /**
   * `nextLevel`: loads the following level and answers true when there is
   * one, and otherwise answers false and changes nothing; it throws only
   * when the following index is negative.
   */
  function NextLevel(m: Manager): (r: Option<(Manager, bool)>)
    ensures NextIndexNotNegative(m) ==> r.Some?
    ensures r.Some? ==> (r.value.1 <==> !IsLastLevel(m))
    ensures r.Some? && r.value.1 ==>
              r.value.0.currentLevelIndex == m.currentLevelIndex + 1 && Some(r.value.0) == LoadLevel(m, m.currentLevelIndex + 1)
    ensures r.Some? && !r.value.1 ==> r.value.0 == m
  {
    var nextIndex := m.currentLevelIndex + 1;
    if nextIndex < |m.levels| then
      match LoadLevel(m, nextIndex)
      case None => None
      case Some(loaded) => Some((loaded, true))
    else Some((m, false))
  }

  /** `restartLevel`. */
  function RestartLevel(m: Manager): (r: Option<Manager>)
    ensures r == LoadLevel(m, m.currentLevelIndex)
    ensures r.Some? ==> r.value.progress.collectedCoins == 0 && r.value.progress.totalTime == 0.0
  {
    LoadLevel(m, m.currentLevelIndex)
  }

  /** `update`: time on a loaded level accrues in seconds. */
  function Update(m: Manager, deltaTime: real): (r: Manager)
    ensures m.currentLevel.None? ==> r == m
    ensures m.currentLevel.Some? ==> r == m.(progress := m.progress.(totalTime := m.progress.totalTime + deltaTime / 1000.0))
    ensures deltaTime >= 0.0 ==> r.progress.totalTime >= m.progress.totalTime
  {
    if m.currentLevel.None? then m
    else m.(progress := m.progress.(totalTime := m.progress.totalTime + deltaTime / 1000.0))
  }

  /** `collectCoin`: exactly one more coin. */
  function CollectCoin(m: Manager): (r: Manager)
    ensures r.progress.collectedCoins == m.progress.collectedCoins + 1
    ensures r.(progress := m.progress) == m && r.progress.(collectedCoins := m.progress.collectedCoins) == m.progress
  {
    m.(progress := m.progress.(collectedCoins := m.progress.collectedCoins + 1))
  }

  /**
   * `isLevelComplete`: all coins in and, under a limit, time still left; a
   * complete level has not run out of time.
   */
  function IsLevelComplete(m: Manager): (b: bool)
    ensures b ==> m.currentLevel.Some? && m.progress.collectedCoins >= m.progress.totalCoins
    ensures b ==> !IsTimeExpired(m)
  {
    m.currentLevel.Some? &&
    var limit := m.currentLevel.value.timeLimit;
    m.progress.collectedCoins >= m.progress.totalCoins && (limit <= 0.0 || limit - m.progress.totalTime > 0.0)
  }

  /**
   * `isTimeExpired`: only a positive limit can run out, and an expired
   * level has no time remaining.
   */
  function IsTimeExpired(m: Manager): (b: bool)
    ensures m.currentLevel.None? || m.currentLevel.value.timeLimit <= 0.0 ==> !b
    ensures b ==> m.currentLevel.value.timeLimit - m.progress.totalTime <= 0.0
  {
    m.currentLevel.Some? && m.currentLevel.value.timeLimit > 0.0 &&
    m.progress.totalTime >= m.currentLevel.value.timeLimit
  }

  /**
   * On a level with a time limit exactly one of three things holds: the
   * level is complete, the time has run out, or coins are still missing
   * with time left.
   */
  lemma CompleteExpiredExclusive(m: Manager)
    requires m.currentLevel.Some? && m.currentLevel.value.timeLimit > 0.0
    ensures !(IsLevelComplete(m) && IsTimeExpired(m))
    ensures IsLevelComplete(m) || IsTimeExpired(m)
         || (m.progress.collectedCoins < m.progress.totalCoins && m.progress.totalTime < m.currentLevel.value.timeLimit)
  {
  }

  /** Collecting the last missing coin in time completes the level. */
  lemma LastCoinCompletes(m: Manager)
    requires m.currentLevel.Some? && !IsTimeExpired(m)
    requires m.progress.collectedCoins + 1 == m.progress.totalCoins
    ensures IsLevelComplete(CollectCoin(m))
  {
  }

  /** What `getRemainingTime` returns: `Infinity`, or a number of seconds. */
  datatype Remaining = Unlimited | Seconds(value: real)

  /** `getRemainingTime`. */
  function GetRemainingTime(m: Manager): (r: Remaining)
    ensures m.currentLevel.None? || m.currentLevel.value.timeLimit <= 0.0 ==> r == Unlimited
    ensures m.currentLevel.Some? && m.currentLevel.value.timeLimit > 0.0 ==>
              r.Seconds? && 0.0 <= r.value
              && (m.progress.totalTime >= 0.0 ==> r.value <= m.currentLevel.value.timeLimit)
              && (r.value == 0.0 <==> IsTimeExpired(m))
  {
    if m.currentLevel.None? || m.currentLevel.value.timeLimit <= 0.0 then Unlimited
    else
      var left := m.currentLevel.value.timeLimit - m.progress.totalTime;
      Seconds(if left > 0.0 then left else 0.0)
  }

  /**
   * `getLevelStats` as written: no time limit in the record, and a
   * `TypeError` without a level.
   */
  function GetLevelStatsAsWritten(m: Manager): (r: Option<ScoreManager.LevelStats>)
    ensures r.None? <==> m.currentLevel.None?
    ensures r.Some? ==> r.value.timeLimit == None && r.value.timeRemaining >= 0.0
    ensures r.Some? ==> r.value.coinsCollected == m.progress.collectedCoins && r.value.totalCoins == m.progress.totalCoins
  {
    if m.currentLevel.None? then None
    else
      var left := m.currentLevel.value.timeLimit - m.progress.totalTime;
      Some(ScoreManager.LevelStats(if left > 0.0 then left else 0.0, None,
                                   m.progress.collectedCoins, m.progress.totalCoins))
  }

  /** `getLevelStats` with the time limit the level score reads. */
  function GetLevelStats(m: Manager): (r: Option<ScoreManager.LevelStats>)
    ensures r.None? <==> m.currentLevel.None?
    ensures r.Some? ==> r.value.timeLimit == Some(m.currentLevel.value.timeLimit)
    ensures r.Some? ==> r.value == GetLevelStatsAsWritten(m).value.(timeLimit := Some(m.currentLevel.value.timeLimit))
    ensures r.Some? && m.progress.totalTime >= 0.0 && m.currentLevel.value.timeLimit > 0.0 ==>
              0.0 <= r.value.timeRemaining <= m.currentLevel.value.timeLimit
  {
    match GetLevelStatsAsWritten(m)
    case None => None
    case Some(stats) => Some(stats.(timeLimit := Some(m.currentLevel.value.timeLimit)))
  }

  /** `Math.round` for the values used here: half-way cases go up. */
  function Round(x: real): (r: int)
    ensures x - 0.5 < r as real <= x + 0.5
  {
    (x + 0.5).Floor
  }

  /** The progress block of `getLevelInfo`, and the fields it copies from the level. */
  datatype LevelInfo = LevelInfo(
    id: real, name: string, difficulty: string, timeLimit: real, description: string,
    coins: int, totalCoins: int, percentage: int)

  /** `getLevelInfo`: `null` without a level; the coin percentage is 0 for a level without coins. */
  function GetLevelInfo(m: Manager): (r: Option<LevelInfo>)
    ensures r.None? <==> m.currentLevel.None?
    ensures r.Some? && m.progress.totalCoins <= 0 ==> r.value.percentage == 0
    ensures r.Some? && 0 <= m.progress.collectedCoins <= m.progress.totalCoins ==> 0 <= r.value.percentage <= 100
    ensures r.Some? && 0 < m.progress.collectedCoins == m.progress.totalCoins ==> r.value.percentage == 100
    ensures r.Some? ==> r.value.coins == m.progress.collectedCoins && r.value.totalCoins == m.progress.totalCoins
  {
    match m.currentLevel
    case None => None
    case Some(level) =>
      var collected := m.progress.collectedCoins;
      var total := m.progress.totalCoins;
      Helpers.DivAtMostOne(collected as real, total as real);
      var percentage := if total > 0 then Round((collected as real) / (total as real) * 100.0) else 0;
      Some(LevelInfo(level.id, level.name, level.difficulty, level.timeLimit, level.description, collected, total, percentage))
  }

  /**
   * `getCompletionPercentage`: 70% for the coins and 30% for the time
   * left (all of it without a limit), rounded; 0 without a level or
   * without coins.
   */
  function GetCompletionPercentage(m: Manager): (p: int)
    ensures m.currentLevel.None? || m.progress.totalCoins == 0 ==> p == 0
    ensures (m.currentLevel.Some? && 0 <= m.progress.collectedCoins <= m.progress.totalCoins
             && m.progress.totalTime >= 0.0) ==> 0 <= p <= 100
  {
    if m.currentLevel.None? || m.progress.totalCoins == 0 then 0
    else
      var collected := m.progress.collectedCoins as real;
      var total := m.progress.totalCoins as real;
      Helpers.DivAtMostOne(collected, total);
      var coinPart := collected / total * 0.7;
      var limit := m.currentLevel.value.timeLimit;
      var timePart :=
        if limit > 0.0 then
          var left := GetRemainingTime(m).value;
          Helpers.DivAtMostOne(left, limit);
          left / limit * 0.3
        else 0.3;
      Round((coinPart + timePart) * 100.0)
  }
}

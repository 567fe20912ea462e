/**
 * js/managers/ScoreManager.js: the running score, the combo and its
 * multiplier, the end-of-level bonuses and the achievement flags.
 *
 * A score is a JavaScript number, and the level-score path can make it
 * `NaN`; `Points` models that value explicitly. The saved high score is a
 * parameter of the constructor; saving and the console messages of
 * `unlockAchievement` are not modelled.
 */
module ScoreManager {
  import opened Wrappers
  import Helpers

  const ComboDuration: real := 3000.0
  const CoinValue: int := 10
  const TimeBonusMultiplier: real := 10.0
  const CoinBonusMax: real := 500.0
  const PerfectBonus: int := 1000
  const ComboBonusPerHit: int := 10

  /** A JavaScript number as scores use it: an integer, or `NaN`. */
  datatype Points = Points(n: int) | NotANumber

  /** `+` on numbers: `NaN` absorbs everything. */
  function Plus(a: Points, b: Points): (r: Points)
    ensures r.Points? <==> a.Points? && b.Points?
    ensures r.Points? ==> r.n == a.n + b.n
  {
    if a.Points? && b.Points? then Points(a.n + b.n) else NotANumber
  }

  /** `Math.floor(points * multiplier)`. */
  function Scale(p: Points, m: real): (r: Points)
    ensures r.Points? <==> p.Points?
    ensures r.Points? ==> (r.n as real) <= (p.n as real) * m < (r.n as real) + 1.0
  {
    if p.Points? then Points(((p.n as real) * m).Floor) else NotANumber
  }

  datatype Achievements = Achievements(
    firstCoin: bool, firstCombo: bool, perfectLevel: bool, speedRunner: bool, coinCollector: bool)

  /** Every achievement unlocked in `a` is still unlocked in `b`. */
  predicate Keeps(a: Achievements, b: Achievements) {
    && (a.firstCoin ==> b.firstCoin)
    && (a.firstCombo ==> b.firstCombo)
    && (a.perfectLevel ==> b.perfectLevel)
    && (a.speedRunner ==> b.speedRunner)
    && (a.coinCollector ==> b.coinCollector)
  }

  /** Why points were given; only coins matter to the achievements. */
  datatype Reason = CoinReason | LevelCompleteReason | OtherReason

  datatype Score = Score(
    currentScore: Points,
    highScore: int,
    multiplier: real,
    combo: int,
    maxCombo: int,
    comboTimer: real,
    coinsCollected: int,
    achievements: Achievements)

  /** The multiplier a combo of a given length earns. */
  function MultiplierFor(combo: int): (m: real)
    ensures combo < 5 ==> m == 1.0
    ensures 5 <= combo < 10 ==> m == 1.5
    ensures combo >= 10 ==> m == 2.0
  {
    if combo >= 10 then 2.0 else if combo >= 5 then 1.5 else 1.0
  }

  /**
   * What every operation keeps: the combo is never negative nor above the
   * best combo, the multiplier always matches the combo, and the coin
   * count is never negative.
   */
  predicate Valid(s: Score) {
    0 <= s.combo <= s.maxCombo && s.multiplier == MultiplierFor(s.combo) && 0 <= s.coinsCollected
  }

  /** The constructor, with the high score loaded from storage. */
  function Create(savedHighScore: int): (s: Score)
    ensures Valid(s) && s.currentScore == Points(0) && s.highScore == savedHighScore
    ensures s.combo == 0 && s.multiplier == 1.0 && s.coinsCollected == 0
  {
    Score(Points(0), savedHighScore, 1.0, 0, 0, 0.0, 0, Achievements(false, false, false, false, false))
  }

  /**
   * `updateCombo`: one more hit; the best combo follows, the timer
   * restarts, the multiplier follows the new length, and a combo of three
   * unlocks `firstCombo`.
   */
  function UpdateCombo(s: Score): (r: Score)
    ensures r.combo == s.combo + 1 && r.comboTimer == ComboDuration
    ensures r.maxCombo >= r.combo && (r.maxCombo == s.maxCombo || r.maxCombo == r.combo)
    ensures r.maxCombo >= s.maxCombo
    ensures r.multiplier == MultiplierFor(r.combo)
    ensures r.combo >= 3 ==> r.achievements.firstCombo
    ensures Keeps(s.achievements, r.achievements)
    ensures Valid(s) ==> Valid(r)
    ensures r.currentScore == s.currentScore && r.highScore == s.highScore && r.coinsCollected == s.coinsCollected
  {
    var combo := s.combo + 1;
    var achievements := if combo >= 3 then s.achievements.(firstCombo := true) else s.achievements;
    s.(combo := combo,
       maxCombo := if s.maxCombo > combo then s.maxCombo else combo,
       comboTimer := ComboDuration,
       multiplier := MultiplierFor(combo),
       achievements := achievements)
  }

  /** `checkAchievements`: the first coin unlocks `firstCoin`. */
  function CheckAchievements(s: Score, reason: Reason): (r: Score)
    ensures reason == CoinReason && s.coinsCollected == 1 ==> r.achievements.firstCoin
    ensures Keeps(s.achievements, r.achievements)
    ensures r.(achievements := s.achievements) == s
  {
    if reason == CoinReason && s.coinsCollected == 1 then s.(achievements := s.achievements.(firstCoin := true)) else s
  }

  /**
   * `addScore`: the points are scaled by the multiplier in force BEFORE
   * this call's combo hit, added, and returned; the high score follows the
   * current score upwards.
   */
  function AddScore(s: Score, points: Points, reason: Reason): (r: (Score, Points))
    ensures r.1 == Scale(points, s.multiplier)
    ensures r.0.currentScore == Plus(s.currentScore, r.1)
    ensures r.0.combo == s.combo + 1 && r.0.multiplier == MultiplierFor(s.combo + 1)
    ensures r.0.highScore >= s.highScore
    ensures r.0.currentScore.Points? ==> r.0.highScore >= r.0.currentScore.n
    ensures r.0.currentScore.Points? && r.0.currentScore.n > s.highScore ==> r.0.highScore == r.0.currentScore.n
    ensures r.0.coinsCollected == s.coinsCollected
    ensures Keeps(s.achievements, r.0.achievements)
    ensures Valid(s) ==> Valid(r.0)
  {
    var actual := Scale(points, s.multiplier);
    var added := s.(currentScore := Plus(s.currentScore, actual));
    var combo := UpdateCombo(added);
    var high :=
      if combo.currentScore.Points? && combo.currentScore.n > combo.highScore then combo.(highScore := combo.currentScore.n)
      else combo;
    (CheckAchievements(high, reason), actual)
  }

  /** `addCoin`: one more coin, scored as `CoinValue` points through `addScore`. */
  function AddCoin(s: Score): (r: (Score, Points))
    ensures r.0.coinsCollected == s.coinsCollected + 1
    ensures r.1 == Scale(Points(CoinValue), s.multiplier)
    ensures r == AddScore(s.(coinsCollected := s.coinsCollected + 1), Points(CoinValue), CoinReason)
    ensures s.coinsCollected == 0 ==> r.0.achievements.firstCoin
    ensures Valid(s) ==> Valid(r.0)
  {
    AddScore(s.(coinsCollected := s.coinsCollected + 1), Points(CoinValue), CoinReason)
  }

  /** `resetCombo`: no combo, no bonus, no timer. */
  function ResetCombo(s: Score): (r: Score)
    ensures r.combo == 0 && r.multiplier == 1.0 && r.comboTimer == 0.0
    ensures r.(combo := s.combo, multiplier := s.multiplier, comboTimer := s.comboTimer) == s
    ensures Valid(s) ==> Valid(r)
  {
    s.(combo := 0, multiplier := 1.0, comboTimer := 0.0)
  }

  /** `update`: the combo timer runs down only during a combo, and the combo ends when it runs out. */
  function Update(s: Score, deltaTime: real): (r: Score)
    ensures s.combo <= 0 ==> r == s
    ensures s.combo > 0 && s.comboTimer - deltaTime <= 0.0 ==> r == ResetCombo(s)
    ensures s.combo > 0 && s.comboTimer - deltaTime > 0.0 ==> r == s.(comboTimer := s.comboTimer - deltaTime)
    ensures Valid(s) ==> Valid(r)
  {
    if s.combo > 0 then
      var timer := s.comboTimer - deltaTime;
      if timer <= 0.0 then ResetCombo(s) else s.(comboTimer := timer)
    else s
  }

  /** A combo left alone for its whole duration ends. */
  lemma ComboExpires(s: Score, points: Points, reason: Reason, deltaTime: real)
    requires Valid(s) && deltaTime >= ComboDuration
    ensures var after := Update(AddScore(s, points, reason).0, deltaTime);
            after.combo == 0 && after.multiplier == 1.0
  {
  }

  /**
   * The multiplier lags one hit behind the combo: starting afresh, the
   * fifth coin-sized award still earns 10, and only the sixth earns 15.
   */
  lemma MultiplierLagsOneHit()
    ensures var s0 := Create(0);
            var a1 := AddScore(s0, Points(10), OtherReason);
            var a2 := AddScore(a1.0, Points(10), OtherReason);
            var a3 := AddScore(a2.0, Points(10), OtherReason);
            var a4 := AddScore(a3.0, Points(10), OtherReason);
            var a5 := AddScore(a4.0, Points(10), OtherReason);
            var a6 := AddScore(a5.0, Points(10), OtherReason);
            && a5.0.combo == 5 && a5.1 == Points(10)
            && a6.1 == Points(15) && a6.0.currentScore == Points(65)
  {
  }

  /** Once the current score is `NaN`, no award brings it back; the high score is kept. */
  lemma NotANumberIsSticky(s: Score, points: Points, reason: Reason)
    requires s.currentScore == NotANumber
    ensures AddScore(s, points, reason).0.currentScore == NotANumber
    ensures AddScore(s, points, reason).0.highScore == s.highScore
  {
  }

  /**
   * `getTimeBonus`: nothing without a positive limit. Otherwise the
   * fraction of the limit left, times 1000, rounded down, and keeping 80%
   * of the time unlocks `speedRunner`. An undefined limit fails the `<= 0`
   * test and yields `NaN`.
   */
  function GetTimeBonus(s: Score, remainingTime: real, totalTime: Option<real>): (r: (Score, Points))
    ensures totalTime == None ==> r == (s, NotANumber)
    ensures totalTime.Some? && totalTime.value <= 0.0 ==> r == (s, Points(0))
    ensures totalTime.Some? && totalTime.value > 0.0 && 0.0 <= remainingTime <= totalTime.value ==>
              r.1.Points? && 0 <= r.1.n <= 1000
    ensures totalTime.Some? && totalTime.value > 0.0 && remainingTime == totalTime.value ==>
              r.1 == Points(1000) && r.0.achievements.speedRunner
    ensures Keeps(s.achievements, r.0.achievements)
    ensures r.0.(achievements := s.achievements) == s
  {
    match totalTime
    case None => (s, NotANumber)
    case Some(total) =>
      if total <= 0.0 then (s, Points(0))
      else
        var percentage := remainingTime / total;
        Helpers.DivAtMostOne(remainingTime, total);
        var bonus := (percentage * TimeBonusMultiplier * 100.0).Floor;
        var unlocked := if percentage >= 0.8 then s.(achievements := s.achievements.(speedRunner := true)) else s;
        (unlocked, Points(bonus))
  }

  /**
   * `getCoinBonus`: nothing when the level has no coins; otherwise the
   * collected fraction of 500, rounded down. Collecting every coin unlocks
   * `perfectLevel`, and fifty coins in the run unlock `coinCollector`.
   */
  function GetCoinBonus(s: Score, collectedCoins: int, totalCoins: int): (r: (Score, int))
    ensures totalCoins == 0 ==> r == (s, 0)
    ensures 0 <= collectedCoins <= totalCoins && totalCoins > 0 ==> 0 <= r.1 <= 500
    ensures collectedCoins == totalCoins && totalCoins > 0 ==> r.1 == 500 && r.0.achievements.perfectLevel
    ensures totalCoins != 0 && s.coinsCollected >= 50 ==> r.0.achievements.coinCollector
    ensures Keeps(s.achievements, r.0.achievements)
    ensures r.0.(achievements := s.achievements) == s
  {
    if totalCoins == 0 then (s, 0)
    else
      var percentage := (collectedCoins as real) / (totalCoins as real);
      Helpers.DivAtMostOne(collectedCoins as real, totalCoins as real);
      var bonus := (percentage * CoinBonusMax).Floor;
      var a1 := if percentage == 1.0 then s.achievements.(perfectLevel := true) else s.achievements;
      var a2 := if s.coinsCollected >= 50 then a1.(coinCollector := true) else a1;
      (s.(achievements := a2), bonus)
  }

  /** What `getLevelStats` hands over; `timeLimit` is `None` when the record lacks it. */
  datatype LevelStats = LevelStats(timeRemaining: real, timeLimit: Option<real>, coinsCollected: int, totalCoins: int)

  datatype LevelScore = LevelScore(
    baseScore: Points, timeBonus: Points, coinBonus: int, comboBonus: int, perfectBonus: int,
    totalScore: Points, multiplier: real, maxCombo: int)

  /**
   * `calculateLevelScore`: the current score plus the time, coin, combo
   * and perfect bonuses. Without a time limit in the statistics the time
   * bonus, and so the total, is `NaN`.
   */
  function CalculateLevelScore(s: Score, stats: LevelStats): (r: (Score, LevelScore))
    ensures r.1.perfectBonus == (if stats.coinsCollected == stats.totalCoins then PerfectBonus else 0)
    ensures r.1.comboBonus == s.maxCombo * ComboBonusPerHit && r.1.baseScore == s.currentScore
    ensures r.1.totalScore
         == Plus(Plus(r.1.baseScore, r.1.timeBonus), Points(r.1.coinBonus + r.1.comboBonus + r.1.perfectBonus))
    ensures stats.timeLimit == None ==> r.1.totalScore == NotANumber
    ensures stats.timeLimit.Some? && s.currentScore.Points? ==> r.1.totalScore.Points?
    ensures stats.timeLimit.Some? && stats.timeLimit.value > 0.0 && 0.0 <= stats.timeRemaining <= stats.timeLimit.value
            && 0 <= stats.coinsCollected <= stats.totalCoins && s.currentScore.Points? && s.maxCombo >= 0 ==>
              s.currentScore.n <= r.1.totalScore.n <= s.currentScore.n + 1000 + 500 + s.maxCombo * 10 + 1000
    ensures Keeps(s.achievements, r.0.achievements)
    ensures r.0.(achievements := s.achievements) == s
  {
    var timed := GetTimeBonus(s, stats.timeRemaining, stats.timeLimit);
    var coined := GetCoinBonus(timed.0, stats.coinsCollected, stats.totalCoins);
    var comboBonus := s.maxCombo * ComboBonusPerHit;
    var perfect := if stats.coinsCollected == stats.totalCoins then PerfectBonus else 0;
    var total := Plus(Plus(s.currentScore, timed.1), Points(coined.1 + comboBonus + perfect));
    (coined.0, LevelScore(s.currentScore, timed.1, coined.1, comboBonus, perfect, total, s.multiplier, s.maxCombo))
  }

  /**
   * Completing a level with the statistics as `getLevelStats` builds them
   * (no time limit) turns the current score into `NaN`.
   */
  lemma LevelAwardWithoutLimitIsNaN(s: Score, timeRemaining: real, collected: int, total: int)
    ensures var level := CalculateLevelScore(s, LevelStats(timeRemaining, None, collected, total));
            AddScore(level.0, level.1.totalScore, LevelCompleteReason).0.currentScore == NotANumber
  {
  }

  /** With the time limit supplied, the award is a number and the current score stays one. */
  lemma LevelAwardWithLimitIsNumber(s: Score, stats: LevelStats)
    requires stats.timeLimit.Some? && s.currentScore.Points?
    ensures var level := CalculateLevelScore(s, stats);
            AddScore(level.0, level.1.totalScore, LevelCompleteReason).0.currentScore.Points?
  {
  }

  /** `resetCurrentScore`: a fresh run that keeps the high score and the achievements. */
  function ResetCurrentScore(s: Score): (r: Score)
    ensures Valid(r)
    ensures r == Create(s.highScore).(achievements := s.achievements, comboTimer := 0.0)
    ensures r.highScore == s.highScore && r.achievements == s.achievements
  {
    s.(currentScore := Points(0), multiplier := 1.0, combo := 0, maxCombo := 0, comboTimer := 0.0, coinsCollected := 0)
  }

  /** `getComboProgress`: how far, in percent, the combo is towards the next multiplier. */
  function GetComboProgress(s: Score): (p: real)
    ensures s.combo >= 0 ==> 0.0 <= p <= 100.0
    ensures s.combo >= 10 ==> p == 100.0
    ensures 0 <= s.combo < 10 ==> p == ((s.combo % 5) as real) * 20.0
  {
    if s.combo >= 10 then 100.0
    else if s.combo >= 5 then ((s.combo - 5) as real) / 5.0 * 100.0
    else (s.combo as real) / 5.0 * 100.0
  }
}

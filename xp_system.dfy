/** The xp rules of app/gamification/xp_system.py: the amount of an award,
    the table-based level thresholds, the CEFR tier of a level, the
    progress toward the next level and the xp total of a session. */
module XpSystem {
  import opened Wrappers
  import opened Numeric
  import opened Strings
  import opened Seqs
  import opened Config
  import opened DbManager

  // ---------------------------------------------------------------- award amounts

  /** Python truthiness of an optional count: absent and 0 are false. */
  predicate Truthy(value: Option<int>) {
    value.Some? && value.value != 0
  }

  /** The amount award_xp passes to add_xp: the configured amount, scaled by
      a truthy value for a per-minute action; for an action the table does
      not know, the value itself or 0. */
  function AwardAmount(action: string, value: Option<int>): int {
    if action in XpTable then
      if Contains(action, "per_minute") && Truthy(value) then XpTable[action] * value.value
      else XpTable[action]
    else if Truthy(value) then value.value
    else 0
  }

  /** A configured action that is not per-minute ignores the value. */
  lemma AwardIgnoresValue(action: string, value: Option<int>)
    requires action in XpTable && !Contains(action, "per_minute")
    ensures AwardAmount(action, value) == AwardAmount(action, None) == XpTable[action]
  {
  }

  /** A per-minute action scales linearly with every nonzero value. */
  lemma AwardScalesPerMinute(action: string, minutes: int)
    requires action in XpTable && Contains(action, "per_minute") && minutes != 0
    ensures AwardAmount(action, Some(minutes)) == minutes * AwardAmount(action, None)
  {
  }

  /** An unknown action awards the value, absent meaning 0. */
  lemma AwardCustom(action: string, value: Option<int>)
    requires action !in XpTable
    ensures AwardAmount(action, value) == value.GetOr(0)
  {
  }

  lemma AwardExamples()
    ensures AwardAmount("conversation_per_minute", Some(3)) == 24
    ensures AwardAmount("conversation_per_minute", Some(0)) == 8
    ensures AwardAmount("speaking_practice_per_minute", None) == 5
    ensures AwardAmount("translation_bonus", Some(40)) == 40
    ensures AwardAmount("translation_bonus", None) == 0
  {
    assert "conversation_per_minute" == "conversation_" + "per_minute";
    assert "speaking_practice_per_minute" == "speaking_practice_" + "per_minute";
    ContainsSuffix("conversation_", "per_minute");
    ContainsSuffix("speaking_practice_", "per_minute");
  }

  /** A string ending in p contains p. */
  lemma {:induction false} ContainsSuffix(s: string, p: string)
    ensures Contains(s + p, p)
  {
    if s == [] {
      assert s + p == p;
      assert StartsWith(p, p);
    } else {
      ContainsSuffix(s[1..], p);
      assert (s + p)[1..] == s[1..] + p;
    }
  }

  // ---------------------------------------------------------------- thresholds

  /** _get_xp_for_level: the table for levels 1..30, the formula for 0 and
      above 30; for a negative level `level ** 1.5` is complex and int()
      raises. */
  function XpForLevel(level: int): Option<int> {
    if 1 <= level <= |LevelXpTable| then Some(LevelXpTable[level - 1])
    else if level >= 0 then Some(LevelFormulaXp(level))
    else None
  }

  /** Each level needs more xp than the one before, across the seam between
      the table (up to 30) and the formula (from 31). */
  lemma XpForLevelStep(level: int)
    requires level >= 1
    ensures XpForLevel(level).Some? && XpForLevel(level + 1).Some?
    ensures XpForLevel(level).value < XpForLevel(level + 1).value
  {
    if level < 30 {
      LevelTableIncreasing();
      assert LevelXpTable[level - 1] < LevelXpTable[level];
    } else if level == 30 {
      FormulaAboveTable();
    } else {
      FormulaStrict(level);
    }
  }

  lemma {:induction false} XpForLevelIncreasing(a: int, b: int)
    requires 1 <= a < b
    ensures XpForLevel(a).Some? && XpForLevel(b).Some?
    ensures XpForLevel(a).value < XpForLevel(b).value
    decreases b - a
  {
    XpForLevelStep(b - 1);
    if a < b - 1 {
      XpForLevelIncreasing(a, b - 1);
    }
  }

  /** The thresholds this module reads are not the ones the stored level is
      computed from: level 2 needs 141 here and 282 there. */
  lemma ThresholdSourcesDiffer()
    ensures XpForLevel(2) == Some(141) && LevelFormulaXp(2) == 282
  {
    FormulaAtTwo();
  }

  // ---------------------------------------------------------------- CEFR tier

  /** The loop over CEFR_LEVEL_RANGES: the first range holding the level,
      else "B2". */
  function CefrIn(ranges: seq<LevelRange>, level: int): string {
    if ranges == [] then "B2"
    else if ranges[0].lo <= level <= ranges[0].hi then ranges[0].cefr
    else CefrIn(ranges[1..], level)
  }

  /** _get_cefr_for_level. */
  function CefrForLevel(level: int): (c: string)
    ensures 1 <= level <= 10 ==> c == "A1"
    ensures 11 <= level <= 25 ==> c == "A2"
    ensures 26 <= level <= 45 ==> c == "B1"
    ensures !(1 <= level <= 45) ==> c == "B2"
  {
    CefrWalk(level);
    CefrIn(CefrLevelRanges, level)
  }

  /** The walk over the four ranges, one step at a time. */
  lemma CefrWalk(level: int)
    ensures CefrIn(CefrLevelRanges, level)
            == if 1 <= level <= 10 then "A1" else if 11 <= level <= 25 then "A2"
               else if 26 <= level <= 45 then "B1" else "B2"
  {
    var r0 := CefrLevelRanges;
    var r1 := r0[1..];
    var r2 := r1[1..];
    var r3 := r2[1..];
    assert r3[0] == LevelRange("B2", 46, 70) && r3[1..] == [];
    assert CefrIn(r3, level) == "B2";
    assert r2[0] == LevelRange("B1", 26, 45);
    assert CefrIn(r2, level) == if 26 <= level <= 45 then "B1" else "B2";
    assert r1[0] == LevelRange("A2", 11, 25);
    assert CefrIn(r1, level) == if 11 <= level <= 25 then "A2" else CefrIn(r2, level);
    assert r0[0] == LevelRange("A1", 1, 10);
  }

  // ---------------------------------------------------------------- level progress

  /** What get_current_level_info returns (the percentage unrounded). */
  datatype LevelInfo = LevelInfo(
    currentLevel: int, currentXp: int, xpForCurrentLevel: int, xpForNextLevel: int,
    xpProgress: int, xpNeededForNext: int, progressPercentage: real,
    cefrLevel: string, maxLevel: int)

  /** get_current_level_info on a stats row: it reads the stored level, not
      the xp, and fails where _get_xp_for_level does. */
  function LevelInfoFor(stats: UserStats): Option<LevelInfo> {
    var level := stats.currentLevel;
    var current, next := XpForLevel(level), XpForLevel(level + 1);
    if current.None? || next.None? then None
    else
      var progress := stats.totalXp - current.value;
      var needed := next.value - current.value;
      Some(LevelInfo(level, stats.totalXp, current.value, next.value, progress, needed,
                     Percentage(progress, needed), CefrForLevel(level), MaxLevel))
  }

  /** progress / needed * 100, or 100 when the gap is not positive. */
  function Percentage(progress: int, needed: int): real {
    if needed > 0 then progress as real / needed as real * 100.0 else 100.0
  }

  lemma PercentageScales(progress: int, needed: int)
    requires needed > 0
    ensures Percentage(progress, needed) * needed as real == progress as real * 100.0
  {
    var q := progress as real / needed as real;
    assert q * needed as real == progress as real;
  }

  /** The info exists exactly for a non-negative stored level, and reports
      that level, the stored xp and the thresholds of that level and the
      next; from level 1 on the gap to the next level is positive, so the
      percentage is the progress over that gap (PercentageScales) and never
      the 100 fallback. */
  lemma LevelInfoShape(stats: UserStats)
    ensures LevelInfoFor(stats).Some? <==> stats.currentLevel >= 0
    ensures stats.currentLevel >= 0 ==>
              var i := LevelInfoFor(stats).value;
              i.currentLevel == stats.currentLevel && i.currentXp == stats.totalXp
              && i.xpForCurrentLevel == XpForLevel(stats.currentLevel).value
              && i.xpForNextLevel == XpForLevel(stats.currentLevel + 1).value
              && i.cefrLevel == CefrForLevel(stats.currentLevel) && i.maxLevel == MaxLevel
    ensures stats.currentLevel >= 1 ==>
              var i := LevelInfoFor(stats).value;
              i.xpNeededForNext > 0
              && i.xpProgress == stats.totalXp - i.xpForCurrentLevel
              && i.xpForNextLevel == i.xpForCurrentLevel + i.xpNeededForNext
              && i.progressPercentage == Percentage(i.xpProgress, i.xpNeededForNext)
  {
    var level := stats.currentLevel;
    if level >= 1 {
      XpForLevelStep(level);
    }
  }

  /** At the stored level 0 the gap is 0 (0 ** 1.5 and the table's level 1
      agree at 0), so the percentage is the fallback 100. */
  lemma LevelInfoAtZero(stats: UserStats)
    requires stats.currentLevel == 0
    ensures LevelInfoFor(stats).Some? && LevelInfoFor(stats).value.progressPercentage == 100.0
  {
    assert LevelFormulaXp(0) == 0 by { IsqrtUnique(0, 0); }
  }

  /** Above the table both thresholds come from the formula the stored level
      is computed from, so a consistent row is between 0 and 100 percent. */
  lemma LevelInfoAboveTable(stats: UserStats)
    requires |LevelXpTable| < stats.currentLevel < MaxLevel
    requires stats.currentLevel == LevelFor(stats.totalXp)
    ensures 0.0 <= LevelInfoFor(stats).value.progressPercentage < 100.0
  {
    var l := stats.currentLevel;
    assert XpForLevel(l) == Some(LevelFormulaXp(l)) && XpForLevel(l + 1) == Some(LevelFormulaXp(l + 1));
    LevelInfoShape(stats);
    var i := LevelInfoFor(stats).value;
    assert stats.totalXp < LevelFormulaXp(l + 1);
    PercentageBounds(i.xpProgress, i.xpNeededForNext);
  }

  lemma PercentageBounds(progress: int, needed: int)
    requires 0 <= progress < needed
    ensures 0.0 <= Percentage(progress, needed) < 100.0
  {
    var q := progress as real / needed as real;
    assert q * needed as real == progress as real;
  }

  /** Within the table the two sources mix: every total from 347 to 518 xp
      is formula level 2 (282 to 518), while the table puts level 3 at 346,
      so the bar shows more than 100 percent. */
  lemma LevelInfoOverflows(xp: int)
    requires 346 < xp < 519
    ensures LevelFor(xp) == 2
    ensures LevelInfoFor(DefaultUserStats.(totalXp := xp, currentLevel := LevelFor(xp))).value.progressPercentage > 100.0
  {
    FormulaAtTwo();
    FormulaAtThree();
    LevelBetween(xp, 2);
    var stats := DefaultUserStats.(totalXp := xp, currentLevel := 2);
    LevelInfoShape(stats);
    var i := LevelInfoFor(stats).value;
    assert i.xpProgress == xp - 141 && i.xpNeededForNext == 205;
    PercentageAbove(xp - 141, 205);
  }

  lemma PercentageAbove(progress: int, needed: int)
    requires 0 < needed < progress
    ensures Percentage(progress, needed) > 100.0
  {
    var q := progress as real / needed as real;
    assert q * needed as real == progress as real;
  }

  // ---------------------------------------------------------------- session xp

  /** The session_data dict; an absent key reads as 0 or False. */
  datatype SessionData = SessionData(
    speakingMinutes: int, writingCount: int, writingWords: int,
    vocabularyCorrect: int, vocabularyIncorrect: int,
    grammarCorrect: int, grammarIncorrect: int,
    firstSessionToday: bool, perfectScore: bool)

  /** One line of the breakdown, with the xp it adds. */
  datatype BreakdownLine =
    | Speaking(minutes: int, xp: int)
    | Writing(count: int, xp: int)
    | VocabularyCorrect(count: int, xp: int)
    | VocabularyTrying(count: int, xp: int)
    | GrammarCorrect(count: int, xp: int)
    | GrammarTrying(count: int, xp: int)
    | LoginBonus(xp: int)
    | PerfectBonus(xp: int)

  datatype SessionXp = SessionXp(totalXp: int, breakdown: seq<BreakdownLine>)

  function SumXp(lines: seq<BreakdownLine>): int {
    if lines == [] then 0 else SumXp(lines[..|lines| - 1]) + lines[|lines| - 1].xp
  }

  /** A breakdown so far: its lines add up to the total, none is negative
      and none is the perfect-score bonus. */
  ghost predicate Ledger(total: int, lines: seq<BreakdownLine>)
    decreases |lines|
  {
    if lines == [] then total == 0
    else
      var last := lines[|lines| - 1];
      last.xp >= 0 && !last.PerfectBonus? && Ledger(total - last.xp, lines[..|lines| - 1])
  }

  lemma LedgerAppend(total: int, lines: seq<BreakdownLine>, line: BreakdownLine)
    requires Ledger(total, lines) && line.xp >= 0 && !line.PerfectBonus?
    ensures Ledger(total + line.xp, lines + [line])
  {
    assert (lines + [line])[..|lines|] == lines;
  }

  /** A finished breakdown without the bonus. */
  lemma {:induction false} LedgerClosed(total: int, lines: seq<BreakdownLine>)
    requires Ledger(total, lines)
    ensures SumXp(lines) == total && total >= 0
    ensures forall k :: 0 <= k < |lines| ==> lines[k].xp >= 0 && !lines[k].PerfectBonus?
    decreases |lines|
  {
    if lines != [] {
      var init := lines[..|lines| - 1];
      LedgerClosed(total - lines[|lines| - 1].xp, init);
      assert forall k :: 0 <= k < |init| ==> lines[k] == init[k];
    }
  }

  /** A finished breakdown closed by the perfect-score bonus. */
  lemma LedgerClosedByBonus(total: int, lines: seq<BreakdownLine>, bonus: int)
    requires Ledger(total, lines) && bonus >= 0
    ensures var r := lines + [PerfectBonus(bonus)];
            SumXp(r) == total + bonus
            && (forall k :: 0 <= k < |r| ==> r[k].xp >= 0)
            && r[|r| - 1].PerfectBonus?
  {
    LedgerClosed(total, lines);
    SumXpAppend(lines, PerfectBonus(bonus));
  }

  lemma SumXpAppend(lines: seq<BreakdownLine>, line: BreakdownLine)
    ensures SumXp(lines + [line]) == SumXp(lines) + line.xp
  {
    assert (lines + [line])[..|lines|] == lines;
  }

  /** The writing rate by the words written. */
  function WritingRate(words: int): int {
    if words < 100 then WritingShortXp
    else if words < 300 then WritingMediumXp
    else WritingLongXp
  }

  /** What a count earns at a rate: nothing unless the count is positive. */
  function Earned(count: int, rate: int): (xp: int)
    ensures rate >= 0 ==> xp >= 0
    ensures count <= 0 ==> xp == 0
  {
    if count > 0 then count * rate else 0
  }

  /** The activity part of a session's xp, as a closed sum. */
  function ActivityXp(d: SessionData): int {
    Earned(d.speakingMinutes, SpeakingPerMinuteXp)
    + Earned(d.writingCount, WritingRate(d.writingWords))
    + Earned(d.vocabularyCorrect, VocabularyCorrectXp)
    + Earned(d.vocabularyIncorrect, VocabularyIncorrectXp)
    + Earned(d.grammarCorrect, GrammarCorrectXp)
    + Earned(d.grammarIncorrect, GrammarIncorrectXp)
  }

  /** The session total: activities, then the login bonus, then a tenth of
      that running total (truncated) for a perfect score. */
  function SessionXpTotal(d: SessionData): int {
    var beforeBonus := ActivityXp(d) + (if d.firstSessionToday then LoginBonusXp else 0);
    if d.perfectScore then beforeBonus + beforeBonus / 10 else beforeBonus
  }

  /** One activity of calculate_session_xp: a line worth count * rate is
      added to the total and the breakdown only when the count is positive. */
  method Record(total: int, lines: seq<BreakdownLine>, count: int, rate: int, line: BreakdownLine)
    returns (newTotal: int, newLines: seq<BreakdownLine>)
    requires Ledger(total, lines) && rate >= 0 && line.xp == count * rate && !line.PerfectBonus?
    ensures newTotal == total + Earned(count, rate) && Ledger(newTotal, newLines)
    ensures newLines == if count > 0 then lines + [line] else lines
  {
    if count > 0 {
      LedgerAppend(total, lines, line);
      newTotal, newLines := total + line.xp, lines + [line];
    } else {
      newTotal, newLines := total, lines;
    }
  }

  /** The activity part of calculate_session_xp: speaking, writing,
      vocabulary and grammar, each counted only when positive. */
  method ActivityBreakdown(d: SessionData) returns (totalXp: int, breakdown: seq<BreakdownLine>)
    ensures totalXp == ActivityXp(d) && Ledger(totalXp, breakdown)
  {
    var n, rate := d.speakingMinutes, SpeakingPerMinuteXp;
    totalXp, breakdown := Record(0, [], n, rate, Speaking(n, n * rate));
    n, rate := d.writingCount, WritingRate(d.writingWords);
    totalXp, breakdown := Record(totalXp, breakdown, n, rate, Writing(n, n * rate));
    n, rate := d.vocabularyCorrect, VocabularyCorrectXp;
    totalXp, breakdown := Record(totalXp, breakdown, n, rate, VocabularyCorrect(n, n * rate));
    n, rate := d.vocabularyIncorrect, VocabularyIncorrectXp;
    totalXp, breakdown := Record(totalXp, breakdown, n, rate, VocabularyTrying(n, n * rate));
    n, rate := d.grammarCorrect, GrammarCorrectXp;
    totalXp, breakdown := Record(totalXp, breakdown, n, rate, GrammarCorrect(n, n * rate));
    n, rate := d.grammarIncorrect, GrammarIncorrectXp;
    totalXp, breakdown := Record(totalXp, breakdown, n, rate, GrammarTrying(n, n * rate));
  }

  /** calculate_session_xp: accumulates the total and the breakdown activity
      by activity, then adds the login bonus and last the perfect-score
      bonus on the running total. */
  method CalculateSessionXp(d: SessionData) returns (r: SessionXp)
    ensures r.totalXp == SessionXpTotal(d)
    ensures SumXp(r.breakdown) == r.totalXp
    ensures forall k :: 0 <= k < |r.breakdown| ==> r.breakdown[k].xp >= 0
    ensures d.perfectScore <==> r.breakdown != [] && r.breakdown[|r.breakdown| - 1].PerfectBonus?
  {
    var totalXp, breakdown := ActivityBreakdown(d);
    if d.firstSessionToday {
      var xp := LoginBonusXp;
      LedgerAppend(totalXp, breakdown, LoginBonus(xp));
      totalXp := totalXp + xp;
      breakdown := breakdown + [LoginBonus(xp)];
    }
    LedgerClosed(totalXp, breakdown);
    if d.perfectScore {
      var bonus := totalXp / 10;
      LedgerClosedByBonus(totalXp, breakdown, bonus);
      totalXp := totalXp + bonus;
      breakdown := breakdown + [PerfectBonus(bonus)];
    }
    r := SessionXp(totalXp, breakdown);
  }

  /** A session never earns negative xp. */
  lemma SessionXpNonNegative(d: SessionData)
    ensures SessionXpTotal(d) >= 0
  {
  }

  /** The perfect-score bonus is a tenth of the total including the login
      bonus. */
  lemma PerfectBonusIncludesLogin(d: SessionData)
    requires d.firstSessionToday && d.perfectScore
    ensures SessionXpTotal(d) == ActivityXp(d) + 25 + (ActivityXp(d) + 25) / 10
  {
  }

  /** Counts of 0 or below contribute nothing: clearing them keeps the total. */
  lemma NonPositiveCountsIgnored(d: SessionData)
    ensures SessionXpTotal(d) == SessionXpTotal(d.(
      speakingMinutes := Max(d.speakingMinutes, 0), writingCount := Max(d.writingCount, 0),
      vocabularyCorrect := Max(d.vocabularyCorrect, 0), vocabularyIncorrect := Max(d.vocabularyIncorrect, 0),
      grammarCorrect := Max(d.grammarCorrect, 0), grammarIncorrect := Max(d.grammarIncorrect, 0)))
  {
  }

  /** Ten minutes of speaking, two short texts, twelve correct and three
      missed words on a first, perfect session: 50 + 40 + 60 + 6 + 25 = 181,
      plus 18. */
  lemma SessionXpExample()
    ensures SessionXpTotal(SessionData(10, 2, 80, 12, 3, 0, 0, true, true)) == 199
  {
  }

  // ---------------------------------------------------------------- the system

  /** What award_xp returns: add_xp's fields plus the new achievements. */
  datatype AwardResult = AwardResult(award: XpAward, newAchievements: seq<AchievementRow>)

  // XPSystem keeps no state of its own besides the database handle and the
  // constant xp table, so its methods take the database as a parameter.

  /** award_xp: passes the award amount to add_xp (labelled with the
      reason, or the action when the reason is empty), then runs the
      achievement check. The xp is committed even when the check then
      fails on an empty vocabulary. */
  method AwardXp(db: DatabaseManager, action: string, value: Option<int>, reason: string, now: int)
    returns (r: Result<AwardResult, DbError>)
    requires db.Valid()
    modifies db`userStats, db`achievements
    ensures db.Valid()
    ensures var amount := AwardAmount(action, value);
            db.userStats == WithXp(old(db.userStats), amount)
    ensures db.Rows() == [] ==> r == Failure(EmptyVocabulary) && db.achievements == old(db.achievements)
    ensures db.Rows() != [] ==>
              r.Success?
              && r.value.award == XpAward(AwardAmount(action, value), db.userStats.totalXp,
                                          old(db.userStats.currentLevel), db.userStats.currentLevel,
                                          db.userStats.currentLevel > old(db.userStats.currentLevel),
                                          if reason == "" then action else reason)
              && r.value.newAchievements == NewlyUnlocked(old(db.achievements), db.Progress())
              && db.achievements == RefreshAll(old(db.achievements), db.Progress(), now)
  {
    var xpAmount := AwardAmount(action, value);
    var award := db.AddXp(xpAmount, if reason == "" then action else reason);
    var unlocked := db.CheckAndUnlockAchievements(now);
    if unlocked.Failure? {
      r := Failure(unlocked.error);
    } else {
      r := Success(AwardResult(award, unlocked.value));
    }
  }

  /** get_current_level_info on the stored stats. */
  function GetCurrentLevelInfo(db: DatabaseManager): Option<LevelInfo>
    reads db
  {
    LevelInfoFor(db.userStats)
  }
}

/** The constant tables of app/config.py that the learner-progression core reads. */
module Config {
  import opened Numeric

  // ---------------------------------------------------------------- levels

  const MaxLevel := 70

  /** LEVEL_XP_REQUIREMENTS: entry k - 1 is the xp of level k, for levels 1..30. */
  const LevelXpTable: seq<int> := [0, 141, 346, 632, 968, 1342, 1747, 2179, 2635, 3114,
    3614, 4134, 4672, 5228, 5801, 6391, 6996, 7617, 8253, 8944,
    9549, 10199, 10862, 11539, 12229, 12933, 13649, 14378, 15120, 15875]

  /** The formula in the table's comment, floor(100 * n^1.5), computed exactly
      as the integer square root of 10000 * n^3. */
  function LevelFormulaXp(n: nat): nat {
    Isqrt(10000 * n * n * n)
  }

  /** The table starts at 0 for level 1 and is strictly increasing. */
  lemma LevelTableIncreasing()
    ensures |LevelXpTable| == 30 && LevelXpTable[0] == 0
    ensures forall i :: 0 <= i < |LevelXpTable| - 1 ==> LevelXpTable[i] < LevelXpTable[i + 1]
  {
  }

  lemma FormulaAtOne()
    ensures LevelFormulaXp(1) == 100
  {
    IsqrtUnique(10000, 100);
  }

  lemma FormulaAtTwo()
    ensures LevelFormulaXp(2) == 282
  {
    IsqrtUnique(80000, 282);
    assert 10000 * 2 * 2 * 2 == 80000;
  }

  lemma FormulaAtThree()
    ensures LevelFormulaXp(3) == 519
  {
    IsqrtUnique(270000, 519);
    assert 10000 * 3 * 3 * 3 == 270000;
  }

  /** The table does not follow its formula: level 1 needs 0 in the table and
      100 by the formula, level 2 needs 141 and 282. */
  lemma LevelTableIsNotFormula()
    ensures LevelXpTable[1 - 1] == 0 && LevelFormulaXp(1) == 100
    ensures LevelXpTable[2 - 1] == 141 && LevelFormulaXp(2) == 282
  {
    FormulaAtOne();
    FormulaAtTwo();
  }

  /** The formula grows with the level. */
  lemma {:induction false} LevelFormulaMonotone(a: nat, b: nat)
    requires a <= b
    ensures LevelFormulaXp(a) <= LevelFormulaXp(b)
  {
    MulMonotone(a, b);
    assert a * a * a <= b * b * b by {
      assert a * a <= b * b;
      MulLe(a * a, a, b * b, b);
    }
    IsqrtMonotone(10000 * a * a * a, 10000 * b * b * b);
  }

  /** The formula grows strictly from one level to the next: the step from
      a to a + 1 adds at least 10000 * (3a^2 + 3a + 1) under the root, more
      than the 2 * 100a^2 + 1 the root needs to grow by one. */
  lemma FormulaStrict(a: nat)
    requires a >= 1
    ensures LevelFormulaXp(a) < LevelFormulaXp(a + 1)
  {
    var n := 10000 * a * a * a;
    var c := 100 * a * a;
    RootBelowSquare(a, n, c, Isqrt(n));
    CubeStep(a, n, c);
    IsqrtGrows(n, 10000 * (a + 1) * (a + 1) * (a + 1), c);
  }

  /** A root of 10000 a^3 is at most 100 a^2. */
  lemma RootBelowSquare(a: nat, n: nat, c: nat, t: nat)
    requires a >= 1 && n == 10000 * a * a * a && c == 100 * a * a && t * t <= n
    ensures t <= c
  {
    MulLeft(n, 1, a);
    assert c * c == n * a;
    if t > c {
      MulMonotone(c + 1, t);
    }
  }

  lemma CubeStep(a: nat, n: nat, c: nat)
    requires n == 10000 * a * a * a && c == 100 * a * a
    ensures n + 2 * c + 1 <= 10000 * (a + 1) * (a + 1) * (a + 1)
  {
    assert (a + 1) * (a + 1) == a * a + 2 * a + 1;
    assert (a + 1) * (a + 1) * (a + 1) == a * a * a + 3 * (a * a) + 3 * a + 1;
  }

  /** The formula at level 31 lies above the table's last entry. */
  lemma FormulaAboveTable()
    ensures LevelFormulaXp(31) > LevelXpTable[29]
  {
    var n := 10000 * 31 * 31 * 31;
    assert n == 297910000;
    var t := Isqrt(n);
    if t <= 15875 {
      MulMonotone(t + 1, 15876);
    }
  }

  lemma MulLe(x: nat, y: nat, x': nat, y': nat)
    requires x <= x' && y <= y'
    ensures x * y <= x' * y'
  {
    assert x * y <= x' * y;
    assert x' * y <= x' * y';
  }

  // ---------------------------------------------------------------- CEFR

  datatype LevelRange = LevelRange(cefr: string, lo: int, hi: int)

  /** CEFR_LEVEL_RANGES, in the dictionary's order. */
  const CefrLevelRanges: seq<LevelRange> := [
    LevelRange("A1", 1, 10), LevelRange("A2", 11, 25),
    LevelRange("B1", 26, 45), LevelRange("B2", 46, MaxLevel)]

  /** The ranges are non-empty, contiguous, start at 1 and end at 70. */
  lemma CefrRangesContiguous()
    ensures |CefrLevelRanges| == 4
    ensures CefrLevelRanges[0].lo == 1 && CefrLevelRanges[3].hi == MaxLevel
    ensures forall i :: 0 <= i < |CefrLevelRanges| ==> CefrLevelRanges[i].lo <= CefrLevelRanges[i].hi
    ensures forall i :: 0 <= i < |CefrLevelRanges| - 1 ==>
              CefrLevelRanges[i].hi + 1 == CefrLevelRanges[i + 1].lo
  {
  }

  // ---------------------------------------------------------------- SRS

  /** Ease factors are held in hundredths: 130 is 1.3, 250 is 2.5. */
  const MinimumEase := 130
  const MaximumEase := 250
  const StartingEase := 250
  const NewCardsPerDay := 20
  const ReviewCardsPerDay := 100
  const MasteryThreshold := 21

  // ---------------------------------------------------------------- XP

  /** The XP_CONFIG entries that session totals are computed from. */
  const LoginBonusXp := 25
  const VocabularyCorrectXp := 5
  const VocabularyIncorrectXp := 2
  const VocabularyNewWordXp := 10
  const SpeakingPerMinuteXp := 5
  const WritingShortXp := 20
  const WritingMediumXp := 50
  const WritingLongXp := 100
  const GrammarCorrectXp := 10
  const GrammarIncorrectXp := 5

  /** XP_CONFIG. */
  const XpTable: map<string, int> := map[
    "login_bonus" := LoginBonusXp,
    "vocabulary_review_correct" := VocabularyCorrectXp,
    "vocabulary_review_incorrect" := VocabularyIncorrectXp,
    "vocabulary_new_word" := VocabularyNewWordXp,
    "speaking_practice_per_minute" := SpeakingPerMinuteXp,
    "writing_exercise_short" := WritingShortXp,
    "writing_exercise_medium" := WritingMediumXp,
    "writing_exercise_long" := WritingLongXp,
    "grammar_exercise_correct" := GrammarCorrectXp,
    "grammar_exercise_incorrect" := GrammarIncorrectXp,
    "listening_exercise" := 15,
    "reading_exercise" := 15,
    "conversation_per_minute" := 8,
    "mock_exam_completion" := 200,
    "mock_exam_pass_bonus" := 300,
    "streak_milestone_7_days" := 50,
    "streak_milestone_30_days" := 200,
    "streak_milestone_100_days" := 500,
    "achievement_unlock" := 100]

  /** Every configured amount is positive. */
  lemma XpTablePositive()
    ensures forall action :: action in XpTable ==> XpTable[action] > 0
  {
  }

  // ---------------------------------------------------------------- sessions

  /** SESSION_CONFIG["minimum_session_seconds"]: the shortest session that
      earns streak credit. */
  const MinimumSessionSeconds := 600

  // ---------------------------------------------------------------- achievements

  datatype AchievementDef = AchievementDef(
    name: string, title: string, description: string,
    category: string, requirement: int, xp: int)

  /** ACHIEVEMENTS, in list order (icons are not modelled). */
  const Achievements: seq<AchievementDef> := [
    AchievementDef("first_step", "First Step", "Complete your first study session", "milestone", 1, 50),
    AchievementDef("week_warrior", "Week Warrior", "Maintain a 7-day streak", "streak", 7, 100),
    AchievementDef("month_master", "Month Master", "Maintain a 30-day streak", "streak", 30, 300),
    AchievementDef("century_scholar", "Century Scholar", "Maintain a 100-day streak", "streak", 100, 1000),
    AchievementDef("wordsmith_100", "Wordsmith", "Learn 100 words", "vocabulary", 100, 150),
    AchievementDef("wordsmith_500", "Word Master", "Learn 500 words", "vocabulary", 500, 400),
    AchievementDef("wordsmith_2000", "Word Virtuoso", "Learn 2000 words", "vocabulary", 2000, 1500),
    AchievementDef("chatterbox_10", "Chatterbox", "Practice speaking for 10 hours", "speaking", 600, 200),
    AchievementDef("chatterbox_50", "Conversation Expert", "Practice speaking for 50 hours", "speaking", 3000, 600),
    AchievementDef("chatterbox_200", "Native Talker", "Practice speaking for 200 hours", "speaking", 12000, 2000),
    AchievementDef("author_50", "Author", "Complete 50 writing exercises", "writing", 50, 200),
    AchievementDef("author_200", "Prolific Writer", "Complete 200 writing exercises", "writing", 200, 600),
    AchievementDef("author_500", "Literary Master", "Complete 500 writing exercises", "writing", 500, 1500),
    AchievementDef("exam_a1", "A1 Certified", "Pass an A1 mock exam", "exam", 1, 300),
    AchievementDef("exam_a2", "A2 Certified", "Pass an A2 mock exam", "exam", 1, 500),
    AchievementDef("exam_b1", "B1 Certified", "Pass a B1 mock exam", "exam", 1, 800),
    AchievementDef("exam_b2", "B2 Certified", "Pass a B2 mock exam", "exam", 1, 1200),
    AchievementDef("perfectionist_10", "Perfectionist", "Get 10 perfect scores", "milestone", 10, 150),
    AchievementDef("perfectionist_50", "Flawless Master", "Get 50 perfect scores", "milestone", 50, 500),
    AchievementDef("perfectionist_100", "Perfect Legend", "Get 100 perfect scores", "milestone", 100, 1000),
    AchievementDef("dedicated_10", "Dedicated Learner", "Study for 10 hours total", "milestone", 600, 100),
    AchievementDef("dedicated_50", "Serious Student", "Study for 50 hours total", "milestone", 3000, 400),
    AchievementDef("dedicated_200", "Learning Machine", "Study for 200 hours total", "milestone", 12000, 1500),
    AchievementDef("dedicated_500", "Ultimate Scholar", "Study for 500 hours total", "milestone", 30000, 3000)]

  /** Achievement names are unique; every requirement and reward is positive. */
  lemma AchievementsWellFormed()
    ensures |Achievements| == 24
    ensures forall i, j :: 0 <= i < j < |Achievements| ==> Achievements[i].name != Achievements[j].name
    ensures forall i :: 0 <= i < |Achievements| ==> Achievements[i].requirement > 0 && Achievements[i].xp > 0
  {
  }

  // ---------------------------------------------------------------- LLM

  datatype ModelConfig = ModelConfig(modelName: string, temperature: real, maxTokens: int)

  /** LLM_CONFIG["mistral"] and LLM_CONFIG["llama"]. */
  const Mistral := ModelConfig("mistral:7b-instruct-q4_K_M", 0.7, 1024)
  const Llama := ModelConfig("llama3.1:8b-instruct-q4_K_M", 0.3, 2048)
}

/** The learner-progression state of app/database/db_manager.py: the
    vocabulary table with its SM-2 schedule, the singleton user_stats row
    (xp, level, streak), the daily_activity table and the achievements table.
    SQL tables are maps keyed by id or date; "now" is a timestamp in seconds
    and "today" a day number, both passed in. */
module DbManager {
  import opened Wrappers
  import opened Numeric
  import opened Seqs
  import opened Config

  const SecondsPerDay := 86400

  /** The calendar day (days since the epoch) of a timestamp; `DATE(ts)` in SQL. */
  function DayOf(ts: int): (d: int)
    ensures d * SecondsPerDay <= ts < (d + 1) * SecondsPerDay
  {
    ts / SecondsPerDay
  }

  // ================================================================ review grades

  datatype Grade = Again | Hard | Good | Easy

  function GradeName(g: Grade): string {
    match g
    case Again => "again"
    case Hard => "hard"
    case Good => "good"
    case Easy => "easy"
  }

  /** The `difficulty` strings update_vocabulary_review understands. */
  function ParseGrade(difficulty: string): (g: Option<Grade>)
    ensures g.Some? ==> GradeName(g.value) == difficulty
    ensures g.None? ==> forall x: Grade :: GradeName(x) != difficulty
  {
    if difficulty == "again" then Some(Again)
    else if difficulty == "hard" then Some(Hard)
    else if difficulty == "good" then Some(Good)
    else if difficulty == "easy" then Some(Easy)
    else None
  }

  // ================================================================ vocabulary rows

  /** A row of the vocabulary table. Ease is in hundredths (250 is 2.5);
      timestamps are seconds. */
  datatype VocabItem = VocabItem(
    id: int, word: string, translation: string, cefrLevel: string,
    partOfSpeech: Option<string>, gender: Option<string>, pluralForm: Option<string>,
    exampleSentence: Option<string>, exampleTranslation: Option<string>, source: Option<string>,
    createdAt: int, nextReview: int, lastReviewed: Option<int>,
    ease: int, intervalDays: int, repetitions: int,
    timesSeen: int, timesCorrect: int, timesIncorrect: int, mastered: bool)

  /** The columns a review never touches. */
  predicate SameEntry(a: VocabItem, b: VocabItem) {
    a.id == b.id && a.word == b.word && a.translation == b.translation && a.cefrLevel == b.cefrLevel
    && a.partOfSpeech == b.partOfSpeech && a.gender == b.gender && a.pluralForm == b.pluralForm
    && a.exampleSentence == b.exampleSentence && a.exampleTranslation == b.exampleTranslation
    && a.source == b.source && a.createdAt == b.createdAt
  }

  // ================================================================ modified SM-2

  function EaseAfter(ease: int, g: Grade): int {
    match g
    case Again => Max(MinimumEase, ease - 20)
    case Hard => Max(MinimumEase, ease - 15)
    case Good => ease
    case Easy => Min(MaximumEase, ease + 15)
  }

  /** The new interval; `easy` uses the ease it has just raised. */
  function IntervalAfter(interval: int, ease: int, repetitions: int, g: Grade): int {
    match g
    case Again => 1
    case Hard => Max(1, TruncDiv(interval * 12, 10))
    case Good => if repetitions > 0 then TruncDiv(interval * ease, 100) else 1
    case Easy =>
      if repetitions > 0 then TruncDiv(interval * EaseAfter(ease, Easy) * 13, 1000) else 3
  }

  /** One review of a vocabulary row at time `now` (update_vocabulary_review). */
  function Review(v: VocabItem, g: Grade, now: int): (r: VocabItem)
    ensures SameEntry(v, r)
    ensures r.timesSeen == v.timesSeen + 1
    ensures g == Again ==> r.timesIncorrect == v.timesIncorrect + 1 && r.timesCorrect == v.timesCorrect
                           && r.repetitions == 0 && r.intervalDays == 1 && !r.mastered
    ensures g != Again ==> r.timesCorrect == v.timesCorrect + 1 && r.timesIncorrect == v.timesIncorrect
                           && r.repetitions == v.repetitions + 1
    ensures MinimumEase <= v.ease <= MaximumEase ==> MinimumEase <= r.ease <= MaximumEase
    ensures r.mastered <==> r.intervalDays > MasteryThreshold
    ensures r.lastReviewed == Some(now) && r.nextReview == now + r.intervalDays * SecondsPerDay
  {
    var ease := EaseAfter(v.ease, g);
    var interval := IntervalAfter(v.intervalDays, v.ease, v.repetitions, g);
    v.(timesSeen := v.timesSeen + 1,
       timesCorrect := if g == Again then v.timesCorrect else v.timesCorrect + 1,
       timesIncorrect := if g == Again then v.timesIncorrect + 1 else v.timesIncorrect,
       ease := ease, intervalDays := interval,
       repetitions := if g == Again then 0 else v.repetitions + 1,
       lastReviewed := Some(now), nextReview := now + interval * SecondsPerDay,
       mastered := interval > 21)
  }

  /** A schedule the SM-2 rules keep: ease within its bounds, a positive interval. */
  predicate WellScheduled(v: VocabItem) {
    MinimumEase <= v.ease <= MaximumEase && v.intervalDays >= 1
  }

  lemma ScaledAtLeast(i: int, f: int, d: int)
    requires i >= 1 && d > 0 && f >= d
    ensures TruncDiv(i * f, d) >= i
  {
    MulLeft(i, d, f);
    DivAtLeast(i * f, i, d);
  }

  /** A review keeps a well-scheduled row well-scheduled. */
  lemma ReviewKeepsSchedule(v: VocabItem, g: Grade, now: int)
    requires WellScheduled(v)
    ensures WellScheduled(Review(v, g, now))
  {
    var i := v.intervalDays;
    match g
    case Again =>
    case Hard =>
    case Good => if v.repetitions > 0 { ScaledAtLeast(i, v.ease, 100); }
    case Easy =>
      if v.repetitions > 0 {
        var e := EaseAfter(v.ease, Easy);
        assert i * e * 13 == i * (e * 13);
        ScaledAtLeast(i, e * 13, 1000);
      }
  }

  /** On a well-scheduled row that has been recalled before, recalling it
      never shortens the interval, and the grades order the new interval:
      again <= hard <= good <= easy. */
  lemma GradesOrderIntervals(v: VocabItem, now: int)
    requires WellScheduled(v) && v.repetitions > 0
    ensures Review(v, Again, now).intervalDays <= Review(v, Hard, now).intervalDays
    ensures v.intervalDays <= Review(v, Hard, now).intervalDays
    ensures Review(v, Hard, now).intervalDays <= Review(v, Good, now).intervalDays
    ensures Review(v, Good, now).intervalDays <= Review(v, Easy, now).intervalDays
  {
    var i, e := v.intervalDays, v.ease;
    var e' := EaseAfter(e, Easy);
    ScaledAtLeast(i, 12, 10);
    HardBelowGood(i, e);
    GoodBelowEasy(i, e, e');
  }

  lemma HardBelowGood(i: int, e: int)
    requires i >= 1 && e >= 120
    ensures (i * 12) / 10 <= (i * e) / 100
  {
    var q := (i * 12) / 10;
    assert q * 10 <= i * 12;
    MulLeft(i, 120, e);
    assert q * 100 == 10 * (q * 10);
    DivAtLeast(i * e, q, 100);
  }

  lemma GoodBelowEasy(i: int, e: int, e': int)
    requires i >= 1 && 0 <= e <= e'
    ensures (i * e) / 100 <= (i * e' * 13) / 1000
  {
    var q := (i * e) / 100;
    var a, b := i * e, i * e';
    assert q * 100 <= a;
    MulLeft(i, e, e');
    assert a <= b;
    assert q * 1000 == 10 * (q * 100);
    MulLeft(10, q * 100, a);
    MulLeft(10, a, b);
    assert i * e' * 13 == 13 * b;
    assert 10 * b <= 13 * b;
    DivAtLeast(i * e' * 13, q, 1000);
  }

  /** A run of reviews, each with its grade and time. */
  function ReviewAll(v: VocabItem, steps: seq<(Grade, int)>): VocabItem
    decreases |steps|
  {
    if steps == [] then v else ReviewAll(Review(v, steps[0].0, steps[0].1), steps[1..])
  }

  /** Whatever the grades, repeated reviews keep the ease in [1.3, 2.5], the
      interval positive and the entry itself unchanged, and count every one. */
  lemma {:induction false} ReviewsKeepSchedule(v: VocabItem, steps: seq<(Grade, int)>)
    requires WellScheduled(v)
    ensures WellScheduled(ReviewAll(v, steps))
    ensures SameEntry(v, ReviewAll(v, steps))
    ensures ReviewAll(v, steps).timesSeen == v.timesSeen + |steps|
    decreases |steps|
  {
    if steps != [] {
      var w := Review(v, steps[0].0, steps[0].1);
      ReviewKeepsSchedule(v, steps[0].0, steps[0].1);
      ReviewsKeepSchedule(w, steps[1..]);
    }
  }

  /** A good review of ease 2.5, interval 10, repetitions 3 gives interval 25,
      repetitions 4 and a mastered word; an again review of ease 1.3,
      interval 5, repetitions 2 keeps ease 1.3 and resets the rest. */
  lemma ReviewExamples(v: VocabItem, now: int)
    ensures var r := Review(v.(ease := 250, intervalDays := 10, repetitions := 3), Good, now);
            r.intervalDays == 25 && r.repetitions == 4 && r.mastered && r.ease == 250
    ensures var r := Review(v.(ease := 130, intervalDays := 5, repetitions := 2), Again, now);
            r.ease == 130 && r.intervalDays == 1 && r.repetitions == 0 && !r.mastered
  {
  }

  // ================================================================ levels

  /** Every threshold from `level` upward lies above xp once the one at
      `level` does. */
  lemma ThresholdsAbove(xp: int, level: nat)
    requires xp < LevelFormulaXp(level)
    ensures forall j: nat :: level <= j ==> xp < LevelFormulaXp(j)
  {
    forall j: nat | level <= j ensures xp < LevelFormulaXp(j) {
      LevelFormulaMonotone(level, j);
    }
  }

  /** The climb of _calculate_level from `level` upward, every threshold
      below `level` having been reached: it stops one below the first
      threshold xp has not reached, and at 70. */
  function LevelClimb(xp: int, level: int): (l: int)
    requires 1 <= level <= MaxLevel
    requires forall k :: 1 <= k < level ==> LevelFormulaXp(k) <= xp
    ensures 1 <= l <= MaxLevel
    ensures l > 1 ==> LevelFormulaXp(l) <= xp
    ensures forall j :: l < j <= MaxLevel ==> xp < LevelFormulaXp(j)
    decreases MaxLevel - level
  {
    if xp < LevelFormulaXp(level) then
      ThresholdsAbove(xp, level);
      if level > 1 then level - 1 else 1
    else if level == MaxLevel then MaxLevel
    else LevelClimb(xp, level + 1)
  }

  /** The level _calculate_level assigns to an xp total. */
  function LevelFor(xp: int): (l: int)
    ensures 1 <= l <= MaxLevel
    ensures l > 1 ==> LevelFormulaXp(l) <= xp
    ensures forall j :: l < j <= MaxLevel ==> xp < LevelFormulaXp(j)
  {
    LevelClimb(xp, 1)
  }

  /** The three properties of LevelFor's contract pin the level down. */
  lemma LevelUnique(xp: int, l: int)
    requires 1 <= l <= MaxLevel
    requires l > 1 ==> LevelFormulaXp(l) <= xp
    requires forall j :: l < j <= MaxLevel ==> xp < LevelFormulaXp(j)
    ensures l == LevelFor(xp)
  {
  }

  /** More xp never gives a lower level. */
  lemma LevelMonotone(a: int, b: int)
    requires a <= b
    ensures LevelFor(a) <= LevelFor(b)
  {
  }

  /** LevelFor(xp) is k exactly when xp lies in [T(k), T(k+1)). */
  lemma LevelBetween(xp: int, k: int)
    requires 1 < k < MaxLevel && LevelFormulaXp(k) <= xp < LevelFormulaXp(k + 1)
    ensures LevelFor(xp) == k
  {
    var l := LevelFor(xp);
    if l > k { LevelFormulaMonotone(k + 1, l); }
  }

  lemma FormulaAtSix()
    ensures LevelFormulaXp(6) == 1469
  {
    IsqrtUnique(2160000, 1469);
    assert 10000 * 6 * 6 * 6 == 2160000;
  }

  lemma FormulaAtSeven()
    ensures LevelFormulaXp(7) == 1852
  {
    IsqrtUnique(3430000, 1852);
    assert 10000 * 7 * 7 * 7 == 3430000;
  }

  /** Below 282 xp (the formula threshold of level 2) the level is 1. */
  lemma LevelOneBelow282(xp: int)
    requires xp < 282
    ensures LevelFor(xp) == 1
  {
    FormulaAtTwo();
    if LevelFor(xp) > 1 { LevelFormulaMonotone(2, LevelFor(xp)); }
  }

  /** Every total from 1469 up to 1851 xp is level 6: 1747 xp plus 95 gives
      1842 xp and no level-up (the level-7 threshold is 1852). */
  lemma LevelSixRange(xp: int)
    requires 1469 <= xp < 1852
    ensures LevelFor(xp) == 6
  {
    FormulaAtSix();
    FormulaAtSeven();
    LevelBetween(xp, 6);
  }

  // ================================================================ user stats & streak

  /** The singleton user_stats row. Dates are day numbers. */
  datatype UserStats = UserStats(
    totalXp: int, currentLevel: int, streakDays: int, longestStreak: int,
    lastActivityDate: Option<int>, totalSecondsStudied: int, currentCefrLevel: string)

  const DefaultUserStats := UserStats(0, 1, 0, 0, None, 0, "A1")

  /** What get_streak_info reports. */
  datatype StreakInfo = StreakInfo(currentStreak: int, longestStreak: int, lastActivity: Option<int>)

  /** The stats row after add_xp: the total grows by xp and the level is
      recomputed from the new total; nothing else changes. */
  function WithXp(s: UserStats, xp: int): UserStats {
    s.(totalXp := s.totalXp + xp, currentLevel := LevelFor(s.totalXp + xp))
  }

  /** The streak never exceeds the longest streak, except that a first or
      restarted streak of 1 may stand beside a longest streak of 0. */
  predicate StreakBounded(s: UserStats) {
    s.streakDays <= Max(s.longestStreak, 1)
  }

  /** update_streak on the stats row, for a session of `duration` seconds ending `today`. */
  function StreakAfter(s: UserStats, today: int, duration: int): (r: UserStats)
    ensures r == s.(streakDays := r.streakDays, longestStreak := r.longestStreak)
    ensures duration < MinimumSessionSeconds ==> r == s
    ensures r.longestStreak >= s.longestStreak
    ensures StreakBounded(s) ==> StreakBounded(r)
    ensures r.longestStreak != s.longestStreak ==> s.lastActivityDate == Some(today - 1)
    ensures duration >= MinimumSessionSeconds ==>
              (r.streakDays == s.streakDays + 1 <==> s.lastActivityDate == Some(today - 1))
              || (s.streakDays == 0 && r.streakDays == 1)
  {
    if duration < MinimumSessionSeconds then s
    else match s.lastActivityDate
      case None => s.(streakDays := 1)
      case Some(last) =>
        var gap := today - last;
        if gap == 0 then s
        else if gap == 1 then
          var streak := s.streakDays + 1;
          s.(streakDays := streak, longestStreak := Max(s.longestStreak, streak))
        else s.(streakDays := 1)
  }

  /** A second session on the same day as the recorded activity changes nothing. */
  lemma StreakSameDay(s: UserStats, today: int, duration: int)
    requires s.lastActivityDate == Some(today)
    ensures StreakAfter(s, today, duration) == s
  {
  }

  /** The four branches of a long enough session: a first activity or a
      broken streak starts again at 1, yesterday's activity extends the
      streak and the longest streak with it. */
  lemma StreakCases(s: UserStats, today: int, duration: int)
    requires duration >= MinimumSessionSeconds
    ensures s.lastActivityDate.None? ==> StreakAfter(s, today, duration) == s.(streakDays := 1)
    ensures s.lastActivityDate == Some(today - 1) ==>
              StreakAfter(s, today, duration)
              == s.(streakDays := s.streakDays + 1, longestStreak := Max(s.longestStreak, s.streakDays + 1))
    ensures s.lastActivityDate.Some? && s.lastActivityDate != Some(today) && s.lastActivityDate != Some(today - 1) ==>
              StreakAfter(s, today, duration) == s.(streakDays := 1)
  {
  }

  /** Streak 5, last activity yesterday, a 15-minute session: streak 6 and the
      longest streak at least 6. */
  lemma StreakExample(s: UserStats, today: int)
    requires s.streakDays == 5 && s.lastActivityDate == Some(today - 1)
    ensures StreakAfter(s, today, 15 * 60).streakDays == 6
    ensures StreakAfter(s, today, 15 * 60).longestStreak == Max(s.longestStreak, 6)
  {
  }

  // ================================================================ daily activity

  datatype DailyRecord = DailyRecord(
    totalSeconds: int, xpEarned: int, wordsLearned: int, exercisesCompleted: int,
    sessionsCount: int, active: bool)

  datatype SessionTotals = SessionTotals(seconds: int, xp: int, words: int, exercises: int)

  /** The daily_activity upsert for one finished session. */
  function UpsertDaily(m: map<int, DailyRecord>, today: int, t: SessionTotals): (r: map<int, DailyRecord>)
    ensures r.Keys == m.Keys + {today}
    ensures forall d :: d in m && d != today ==> r[d] == m[d]
    ensures today in m ==> r[today] == DailyRecord(
              m[today].totalSeconds + t.seconds, m[today].xpEarned + t.xp,
              m[today].wordsLearned + t.words, m[today].exercisesCompleted + t.exercises,
              m[today].sessionsCount + 1, true)
    ensures today !in m ==> r[today] == DailyRecord(t.seconds, t.xp, t.words, t.exercises, 1, true)
  {
    if today in m then
      var e := m[today];
      m[today := e.(totalSeconds := e.totalSeconds + t.seconds, xpEarned := e.xpEarned + t.xp,
                    wordsLearned := e.wordsLearned + t.words,
                    exercisesCompleted := e.exercisesCompleted + t.exercises,
                    sessionsCount := e.sessionsCount + 1, active := true)]
    else
      m[today := DailyRecord(t.seconds, t.xp, t.words, t.exercises, 1, true)]
  }

  /** Two sessions recorded in either order leave the same table. */
  lemma {:induction false} UpsertCommutes(m: map<int, DailyRecord>, d1: int, a: SessionTotals, d2: int, b: SessionTotals)
    ensures UpsertDaily(UpsertDaily(m, d1, a), d2, b) == UpsertDaily(UpsertDaily(m, d2, b), d1, a)
  {
    var x := UpsertDaily(UpsertDaily(m, d1, a), d2, b);
    var y := UpsertDaily(UpsertDaily(m, d2, b), d1, a);
    assert x.Keys == y.Keys;
    forall d | d in x.Keys ensures x[d] == y[d] {
    }
  }

  // ================================================================ achievements

  /** A row of the achievements table. */
  datatype AchievementRow = AchievementRow(
    name: string, title: string, description: string, category: string,
    requirementValue: int, xpReward: int,
    progress: int, unlocked: bool, unlockedAt: Option<int>)

  function NewAchievementRow(d: AchievementDef): (r: AchievementRow)
    ensures r.name == d.name && r.requirementValue == d.requirement && !r.unlocked
  {
    AchievementRow(d.name, d.title, d.description, d.category, d.requirement, d.xp, 0, false, None)
  }

  predicate HasName(rows: seq<AchievementRow>, name: string) {
    exists i :: 0 <= i < |rows| && rows[i].name == name
  }

  ghost predicate UniqueNames(rows: seq<AchievementRow>) {
    forall i, j :: 0 <= i < j < |rows| ==> rows[i].name != rows[j].name
  }

  /** `INSERT OR IGNORE` of one catalog entry, keyed by name. */
  function InsertAbsent(rows: seq<AchievementRow>, d: AchievementDef): (r: seq<AchievementRow>)
    ensures HasName(r, d.name)
    ensures UniqueNames(rows) ==> UniqueNames(r)
    ensures HasName(rows, d.name) ==> r == rows
    ensures !HasName(rows, d.name) ==> r == rows + [NewAchievementRow(d)]
  {
    if HasName(rows, d.name) then rows
    else
      var r := rows + [NewAchievementRow(d)];
      assert r[|rows|].name == d.name;
      r
  }

  /** initialize_achievements: the catalog inserted entry by entry. */
  function InsertAll(rows: seq<AchievementRow>, defs: seq<AchievementDef>): seq<AchievementRow>
    decreases |defs|
  {
    if defs == [] then rows
    else InsertAbsent(InsertAll(rows, defs[..|defs| - 1]), defs[|defs| - 1])
  }

  /** Initializing keeps existing rows as they were, in front, and afterwards
      every catalog name has a row; unique names stay unique. */
  lemma {:induction false} InsertAllProperties(rows: seq<AchievementRow>, defs: seq<AchievementDef>)
    ensures |InsertAll(rows, defs)| >= |rows| && InsertAll(rows, defs)[..|rows|] == rows
    ensures forall k :: 0 <= k < |defs| ==> HasName(InsertAll(rows, defs), defs[k].name)
    ensures UniqueNames(rows) ==> UniqueNames(InsertAll(rows, defs))
    decreases |defs|
  {
    if defs != [] {
      var init := defs[..|defs| - 1];
      InsertAllProperties(rows, init);
      var mid := InsertAll(rows, init);
      var r := InsertAll(rows, defs);
      assert r == InsertAbsent(mid, defs[|defs| - 1]);
      assert r[..|mid|] == mid;
      assert r[..|rows|] == mid[..|rows|];
      forall k | 0 <= k < |defs| ensures HasName(r, defs[k].name) {
        if k < |defs| - 1 {
          assert defs[k] == init[k];
          var i :| 0 <= i < |mid| && mid[i].name == defs[k].name;
          assert r[i] == mid[i];
        }
      }
    }
  }

  lemma HasNameGrows(rows: seq<AchievementRow>, more: seq<AchievementRow>, name: string)
    requires |more| >= |rows| && more[..|rows|] == rows && HasName(rows, name)
    ensures HasName(more, name)
  {
    var i :| 0 <= i < |rows| && rows[i].name == name;
    assert more[i] == rows[i];
  }

  /** Initializing twice is the same as initializing once. */
  lemma InsertAllKeepsUnique(rows: seq<AchievementRow>, defs: seq<AchievementDef>)
    requires UniqueNames(rows)
    ensures UniqueNames(InsertAll(rows, defs))
  {
    InsertAllProperties(rows, defs);
  }

  lemma {:induction false} InsertAllIdempotent(rows: seq<AchievementRow>, defs: seq<AchievementDef>)
    ensures InsertAll(InsertAll(rows, defs), defs) == InsertAll(rows, defs)
  {
    InsertAllProperties(rows, defs);
    InsertAllPresent(InsertAll(rows, defs), defs);
  }

  lemma {:induction false} InsertAllPresent(rows: seq<AchievementRow>, defs: seq<AchievementDef>)
    requires forall k :: 0 <= k < |defs| ==> HasName(rows, defs[k].name)
    ensures InsertAll(rows, defs) == rows
    decreases |defs|
  {
    if defs != [] {
      InsertAllPresent(rows, defs[..|defs| - 1]);
    }
  }

  /** The figures check_and_unlock_achievements reads before its loop. */
  datatype ProgressInputs = ProgressInputs(streakDays: int, totalWords: int, totalSecondsStudied: int)

  /** Only these categories are ever evaluated. */
  predicate Tracked(category: string) {
    category == "streak" || category == "vocabulary" || category == "speaking"
  }

  /** The progress of one achievement category: 0 for every untracked one. */
  function CategoryProgress(category: string, p: ProgressInputs): (n: int)
    ensures !Tracked(category) ==> n == 0
  {
    if category == "streak" then p.streakDays
    else if category == "vocabulary" then p.totalWords
    else if category == "speaking" then p.totalSecondsStudied / 60
    else 0
  }

  predicate ShouldUnlock(row: AchievementRow, p: ProgressInputs) {
    !row.unlocked && Tracked(row.category) && CategoryProgress(row.category, p) >= row.requirementValue
  }

  /** One iteration of the unlock loop. */
  function RefreshRow(row: AchievementRow, p: ProgressInputs, now: int): (r: AchievementRow)
    ensures r.name == row.name && r.category == row.category && r.requirementValue == row.requirementValue
    ensures row.unlocked ==> r == row
    ensures r.unlocked <==> row.unlocked || ShouldUnlock(row, p)
    ensures ShouldUnlock(row, p) ==> r.progress == row.requirementValue && r.unlockedAt == Some(now)
    ensures !row.unlocked && !ShouldUnlock(row, p) ==> r == row.(progress := CategoryProgress(row.category, p))
  {
    if row.unlocked then row
    else if ShouldUnlock(row, p) then row.(unlocked := true, unlockedAt := Some(now), progress := row.requirementValue)
    else row.(progress := CategoryProgress(row.category, p))
  }

  function RefreshAll(rows: seq<AchievementRow>, p: ProgressInputs, now: int): (r: seq<AchievementRow>)
    ensures |r| == |rows|
    ensures forall k :: 0 <= k < |rows| ==> r[k] == RefreshRow(rows[k], p, now)
  {
    seq(|rows|, k requires 0 <= k < |rows| => RefreshRow(rows[k], p, now))
  }

  /** The entries unlocked by one pass, as they were read before it. */
  function NewlyUnlocked(rows: seq<AchievementRow>, p: ProgressInputs): (r: seq<AchievementRow>)
    ensures forall k :: 0 <= k < |r| ==> ShouldUnlock(r[k], p)
    ensures forall k :: 0 <= k < |rows| && ShouldUnlock(rows[k], p) ==> rows[k] in r
  {
    Filter(rows, row => ShouldUnlock(row, p))
  }

  /** An immediate second pass unlocks nothing, and a pass never locks an
      entry again. */
  lemma SecondPassUnlocksNothing(rows: seq<AchievementRow>, p: ProgressInputs, now: int)
    ensures NewlyUnlocked(RefreshAll(rows, p, now), p) == []
    ensures forall k :: 0 <= k < |rows| && rows[k].unlocked ==> RefreshAll(rows, p, now)[k].unlocked
  {
    var r := RefreshAll(rows, p, now);
    FilterNone(r, row => ShouldUnlock(row, p));
  }

  /** An entry requiring 100 words unlocks once the vocabulary holds 100
      words, is returned by that pass and not by the next. */
  lemma UnlockExample(row: AchievementRow, p: ProgressInputs, now: int)
    requires row.category == "vocabulary" && row.requirementValue == 100 && !row.unlocked
    requires p.totalWords == 100
    ensures NewlyUnlocked([row], p) == [row]
    ensures RefreshAll([row], p, now)[0].unlocked
    ensures NewlyUnlocked(RefreshAll([row], p, now), p) == []
  {
    SecondPassUnlocksNothing([row], p, now);
  }

  // ================================================================ the table rows in id order

  /** The rows of a table keyed by ids 1..n-1, in id order. */
  function ItemsBelow(m: map<int, VocabItem>, n: int): (r: seq<VocabItem>)
    ensures |r| == |KeysBelow(m, n)|
    ensures forall k :: 0 <= k < |r| ==> r[k] in m.Values
    decreases n
  {
    if n <= 1 then
      assert KeysBelow(m, n) == {};
      []
    else
      var below := KeysBelow(m, n - 1);
      assert n - 1 !in below;
      if n - 1 in m then
        assert KeysBelow(m, n) == below + {n - 1};
        ItemsBelow(m, n - 1) + [m[n - 1]]
      else
        assert KeysBelow(m, n) == below;
        ItemsBelow(m, n - 1)
  }

  ghost function KeysBelow(m: map<int, VocabItem>, n: int): set<int> {
    set id | id in m && 1 <= id < n
  }

  lemma {:induction false} ItemsBelowComplete(m: map<int, VocabItem>, n: int, id: int)
    requires id in m && 1 <= id < n
    ensures m[id] in ItemsBelow(m, n)
    decreases n
  {
    if id < n - 1 {
      ItemsBelowComplete(m, n - 1, id);
    }
  }

  /** When every row carries its own key as id, the rows come in strictly
      increasing id order, all below n. */
  lemma {:induction false} ItemsBelowInIdOrder(m: map<int, VocabItem>, n: int)
    requires forall id :: id in m ==> m[id].id == id
    ensures forall k :: 0 <= k < |ItemsBelow(m, n)| ==> ItemsBelow(m, n)[k].id < n
    ensures forall j, k :: 0 <= j < k < |ItemsBelow(m, n)| ==> ItemsBelow(m, n)[j].id < ItemsBelow(m, n)[k].id
    decreases n
  {
    if n > 1 {
      ItemsBelowInIdOrder(m, n - 1);
    }
  }

  // ================================================================ the database

  /** The schema's column defaults for a new vocabulary row (schema.sql is
      not part of this model, so they are a parameter). */
  datatype ColumnDefaults = ColumnDefaults(
    ease: int, intervalDays: int, repetitions: int,
    timesSeen: int, timesCorrect: int, timesIncorrect: int, mastered: bool)

  /** The optional keyword arguments of add_vocabulary. */
  datatype VocabExtras = VocabExtras(
    partOfSpeech: Option<string>, gender: Option<string>, pluralForm: Option<string>,
    exampleSentence: Option<string>, exampleTranslation: Option<string>, source: Option<string>)

  datatype SessionEnd = SessionEnd(
    endTime: int, durationSeconds: int, xpEarned: int, wordsLearned: int,
    exercisesCompleted: int, mistakesMade: int, notes: string)

  datatype SessionRow = SessionRow(
    startTime: int, activityType: string, cefrLevel: Option<string>, ended: Option<SessionEnd>)

  /** The exceptions the methods below raise (and the transaction rolls back). */
  datatype DbError =
    | NoSuchVocabulary   // dict(None) on an unknown id
    | UnknownGrade       // times_correct unbound for an unknown difficulty
    | NoSuchSession      // None['start_time'] on an unknown session id
    | EmptyVocabulary    // None > 0 when SUM over an empty table is NULL

  datatype Outcome = Done | Fail(error: DbError)

  /** What add_xp returns. */
  datatype XpAward = XpAward(
    xpGained: int, totalXp: int, oldLevel: int, newLevel: int, leveledUp: bool, reason: string)

  /** What get_vocabulary_stats returns (accuracy unrounded). */
  datatype VocabStats = VocabStats(totalWords: nat, byLevel: map<string, nat>, mastered: nat, accuracy: real)

  predicate IsDue(v: VocabItem, now: int) {
    v.nextReview <= now && !v.mastered
  }

  function SumSeen(rows: seq<VocabItem>): int {
    if rows == [] then 0 else rows[0].timesSeen + SumSeen(rows[1..])
  }

  function SumCorrect(rows: seq<VocabItem>): int {
    if rows == [] then 0 else rows[0].timesCorrect + SumCorrect(rows[1..])
  }

  /** The sort key of `ORDER BY next_review_date ASC`. */
  function ByNextReview(v: VocabItem): Key { Key(v.nextReview, 0) }

  /** The sort key of `ORDER BY created_at DESC`. */
  function ByCreatedDesc(v: VocabItem): Key { Key(-v.createdAt, 0) }

  /** The sort key of `ORDER BY unlocked DESC, requirement_value ASC`. */
  function ByUnlockedThenRequirement(a: AchievementRow): Key {
    Key(if a.unlocked then 0 else 1, a.requirementValue)
  }

  class DatabaseManager {
    var vocabulary: map<int, VocabItem>
    var nextVocabId: int
    var userStats: UserStats
    var sessions: map<int, SessionRow>
    var nextSessionId: int
    var dailyActivity: map<int, DailyRecord>
    var achievements: seq<AchievementRow>
    const defaults: ColumnDefaults

    ghost predicate Valid()
      reads this
    {
      && nextVocabId >= 1 && nextSessionId >= 1
      && (forall id :: id in vocabulary ==> 1 <= id < nextVocabId && vocabulary[id].id == id)
      && (forall a, b :: a in vocabulary && b in vocabulary && a != b ==> vocabulary[a].word != vocabulary[b].word)
      && (forall id :: id in sessions ==> 1 <= id < nextSessionId)
      && UniqueNames(achievements)
      && userStats.currentLevel == LevelFor(userStats.totalXp)
      && StreakBounded(userStats)
    }

    /** A fresh database: empty tables and the default user_stats row. */
    constructor (defaults: ColumnDefaults)
      ensures Valid()
      ensures vocabulary == map[] && sessions == map[] && dailyActivity == map[] && achievements == []
      ensures userStats == DefaultUserStats && this.defaults == defaults
    {
      vocabulary := map[];
      nextVocabId := 1;
      userStats := DefaultUserStats;
      sessions := map[];
      nextSessionId := 1;
      dailyActivity := map[];
      achievements := [];
      this.defaults := defaults;
      new;
      LevelOneBelow282(0);
    }

    /** The vocabulary table in id order. */
    function Rows(): (r: seq<VocabItem>)
      reads this`vocabulary, this`nextVocabId
      ensures forall k :: 0 <= k < |r| ==> r[k] in vocabulary.Values
    {
      ItemsBelow(vocabulary, nextVocabId)
    }

    /** No row is listed twice, and neither is any row of a selection from them. */
    lemma SelectionDistinct(r: seq<VocabItem>)
      requires multiset(r) <= multiset(Rows())
      ensures Valid() ==> Distinct(r)
    {
      if Valid() {
        ItemsBelowInIdOrder(vocabulary, nextVocabId);
        SubmultisetDistinct(r, Rows());
      }
    }

    /** Every row of the table is listed, and the list is as long as the table. */
    lemma RowsComplete()
      requires Valid()
      ensures |Rows()| == |vocabulary|
      ensures forall id :: id in vocabulary ==> vocabulary[id] in Rows()
    {
      assert KeysBelow(vocabulary, nextVocabId) == vocabulary.Keys;
      assert |vocabulary.Keys| == |vocabulary|;
      forall id | id in vocabulary ensures vocabulary[id] in Rows() {
        ItemsBelowComplete(vocabulary, nextVocabId, id);
      }
    }

    // ------------------------------------------------------------ xp and levels

    /** _calculate_level: walks the levels upward until the formula threshold
        exceeds the xp, stopping at 70. */
    static method CalculateLevel(xp: int) returns (level: int)
      ensures level == LevelFor(xp)
      ensures 1 <= level <= MaxLevel
    {
      level := 1;
      while true
        invariant 1 <= level <= MaxLevel
        invariant forall k :: 1 <= k < level ==> LevelFormulaXp(k) <= xp
        decreases MaxLevel - level
      {
        var required := LevelFormulaXp(level);
        if xp < required {
          ThresholdsAbove(xp, level);
          LevelUnique(xp, if level > 1 then level - 1 else 1);
          return if level > 1 then level - 1 else 1;
        }
        level := level + 1;
        if level > MaxLevel {
          LevelUnique(xp, MaxLevel);
          return MaxLevel;
        }
      }
    }

    /** add_xp: adds xp (of any sign) to the total and recomputes the level
        from the new total. */
    method AddXp(xp: int, reason: string) returns (r: XpAward)
      requires Valid()
      modifies this`userStats
      ensures Valid()
      ensures userStats == WithXp(old(userStats), xp)
      ensures r == XpAward(xp, userStats.totalXp, old(userStats.currentLevel), userStats.currentLevel,
                           userStats.currentLevel > old(userStats.currentLevel), reason)
      ensures xp >= 0 ==> r.newLevel >= r.oldLevel
    {
      var oldLevel := userStats.currentLevel;
      var newXp := userStats.totalXp + xp;
      var newLevel := CalculateLevel(newXp);
      userStats := userStats.(totalXp := newXp, currentLevel := newLevel);
      r := XpAward(xp, newXp, oldLevel, newLevel, newLevel > oldLevel, reason);
      if xp >= 0 { LevelMonotone(newXp - xp, newXp); }
    }

    // ------------------------------------------------------------ vocabulary

    predicate HasWord(word: string)
      reads this
    {
      exists id :: id in vocabulary && vocabulary[id].word == word
    }

    /** add_vocabulary: `INSERT OR IGNORE` keyed on the word. A new row gets
        the next id, is due at once and takes the schema defaults; an
        existing word leaves the table alone and yields 0 (lastrowid of an
        ignored insert). */
    method AddVocabulary(word: string, translation: string, cefrLevel: string,
                         extras: VocabExtras, now: int) returns (id: int)
      requires Valid()
      modifies this`vocabulary, this`nextVocabId
      ensures Valid()
      ensures old(HasWord(word)) ==> id == 0 && vocabulary == old(vocabulary) && nextVocabId == old(nextVocabId)
      ensures !old(HasWord(word)) ==>
                id == old(nextVocabId) && nextVocabId == id + 1 && id !in old(vocabulary)
                && vocabulary == old(vocabulary)[id := VocabItem(
                     id, word, translation, cefrLevel,
                     extras.partOfSpeech, extras.gender, extras.pluralForm,
                     extras.exampleSentence, extras.exampleTranslation, extras.source,
                     now, now, None,
                     defaults.ease, defaults.intervalDays, defaults.repetitions,
                     defaults.timesSeen, defaults.timesCorrect, defaults.timesIncorrect, defaults.mastered)]
    {
      if HasWord(word) {
        return 0;
      }
      id := nextVocabId;
      var item := VocabItem(
        id, word, translation, cefrLevel,
        extras.partOfSpeech, extras.gender, extras.pluralForm,
        extras.exampleSentence, extras.exampleTranslation, extras.source,
        now, now, None,
        defaults.ease, defaults.intervalDays, defaults.repetitions,
        defaults.timesSeen, defaults.timesCorrect, defaults.timesIncorrect, defaults.mastered);
      vocabulary := vocabulary[id := item];
      nextVocabId := id + 1;
    }

    /** get_vocabulary_by_level: the words of one level, newest first. */
    function GetVocabularyByLevel(cefrLevel: string): (r: seq<VocabItem>)
      reads this
      ensures forall v :: v in r <==> v in Rows() && v.cefrLevel == cefrLevel
      ensures multiset(r) == multiset(Filter(Rows(), (v: VocabItem) => v.cefrLevel == cefrLevel))
      ensures |r| == Count(Rows(), (v: VocabItem) => v.cefrLevel == cefrLevel)
      ensures Valid() ==> Distinct(r)
      ensures SortedBy(r, ByCreatedDesc)
    {
      var level := Filter(Rows(), (v: VocabItem) => v.cefrLevel == cefrLevel);
      FilterMembers(Rows(), (v: VocabItem) => v.cefrLevel == cefrLevel);
      SortByMembers(level, ByCreatedDesc);
      var sorted := SortBy(level, ByCreatedDesc);
      SelectionDistinct(sorted);
      sorted
    }

    /** get_due_reviews: due, unmastered words, earliest first, at most
        `limit` of them (a negative limit is no limit in SQLite). */
    function GetDueReviews(now: int, limit: int): (r: seq<VocabItem>)
      reads this
      ensures forall v :: v in r ==> v in Rows() && IsDue(v, now)
      ensures SortedBy(r, ByNextReview)
      ensures |r| == if limit < 0 || Count(Rows(), v => IsDue(v, now)) <= limit
                     then Count(Rows(), v => IsDue(v, now)) else limit
      ensures limit < 0 || Count(Rows(), v => IsDue(v, now)) <= limit ==>
                forall v :: v in Rows() && IsDue(v, now) ==> v in r
      ensures multiset(r) <= multiset(Filter(Rows(), v => IsDue(v, now)))
      ensures Valid() ==> Distinct(r)
      ensures forall v, w :: v in r && w in Rows() && IsDue(w, now) && w !in r ==>
                KeyLe(ByNextReview(v), ByNextReview(w))
    {
      var due := Filter(Rows(), v => IsDue(v, now));
      FilterMembers(Rows(), v => IsDue(v, now));
      var sorted := SortBy(due, ByNextReview);
      SortByMembers(due, ByNextReview);
      SqlLimitMembers(sorted, limit);
      var r := SqlLimit(sorted, limit);
      SortedPrefixLeast(sorted, ByNextReview, |r|);
      SelectionDistinct(r);
      r
    }

    /** The row `SELECT * FROM vocabulary WHERE id = ?` finds, if any. */
    function GetVocabularyById(vocabId: int): (r: Option<VocabItem>)
      reads this
      ensures r.Some? <==> vocabId in vocabulary
      ensures r.Some? ==> r.value == vocabulary[vocabId]
    {
      if vocabId in vocabulary then Some(vocabulary[vocabId]) else None
    }

    /** update_vocabulary_review: an unknown id fails first, then an unknown
        grade; either failure changes nothing. */
    method UpdateVocabularyReview(vocabId: int, difficulty: string, now: int) returns (o: Outcome)
      requires Valid()
      modifies this`vocabulary
      ensures Valid()
      ensures vocabId !in old(vocabulary) ==> o == Fail(NoSuchVocabulary) && vocabulary == old(vocabulary)
      ensures vocabId in old(vocabulary) && ParseGrade(difficulty).None? ==>
                o == Fail(UnknownGrade) && vocabulary == old(vocabulary)
      ensures vocabId in old(vocabulary) && ParseGrade(difficulty).Some? ==>
                o == Done && vocabulary == old(vocabulary)[vocabId :=
                  Review(old(vocabulary)[vocabId], ParseGrade(difficulty).value, now)]
    {
      if vocabId !in vocabulary {
        return Fail(NoSuchVocabulary);
      }
      var grade := ParseGrade(difficulty);
      if grade.None? {
        return Fail(UnknownGrade);
      }
      vocabulary := vocabulary[vocabId := Review(vocabulary[vocabId], grade.value, now)];
      o := Done;
    }

    /** get_vocabulary_stats: fails on an empty table, where SUM is NULL. */
    function GetVocabularyStats(): (r: Result<VocabStats, DbError>)
      reads this
      ensures r.Failure? <==> Rows() == []
      ensures r.Success? ==> r.value.totalWords == |Rows()|
                             && r.value.mastered == Count(Rows(), (v: VocabItem) => v.mastered)
      ensures r.Success? ==> forall l :: l in r.value.byLevel <==> exists v :: v in Rows() && v.cefrLevel == l
      ensures r.Success? ==> forall l :: l in r.value.byLevel ==>
                r.value.byLevel[l] == Count(Rows(), (v: VocabItem) => v.cefrLevel == l)
      ensures r.Success? ==> r.value.accuracy == if SumSeen(Rows()) > 0
                then SumCorrect(Rows()) as real / SumSeen(Rows()) as real * 100.0 else 0.0
      ensures r.Success? ==> 0.0 <= r.value.accuracy <= 100.0 || exists k :: 0 <= k < |Rows()| && !(0 <= Rows()[k].timesCorrect <= Rows()[k].timesSeen)
    {
      var rows := Rows();
      if rows == [] then Failure(EmptyVocabulary)
      else
        var seen := SumSeen(rows);
        var correct := SumCorrect(rows);
        var levels := set k | 0 <= k < |rows| :: rows[k].cefrLevel;
        var byLevel := map l | l in levels :: Count(rows, (v: VocabItem) => v.cefrLevel == l);
        var accuracy := if seen > 0 then correct as real / seen as real * 100.0 else 0.0;
        AccuracyPercent(rows);
        Success(VocabStats(|rows|, byLevel, Count(rows, (v: VocabItem) => v.mastered), accuracy))
    }

    // ------------------------------------------------------------ sessions

    /** create_session: a new session row with the next id. */
    method CreateSession(activityType: string, cefrLevel: Option<string>, now: int) returns (id: int)
      requires Valid()
      modifies this`sessions, this`nextSessionId
      ensures Valid()
      ensures id == old(nextSessionId) && id !in old(sessions) && id >= 1
      ensures sessions == old(sessions)[id := SessionRow(now, activityType, cefrLevel, None)]
      ensures nextSessionId == id + 1
    {
      id := nextSessionId;
      sessions := sessions[id := SessionRow(now, activityType, cefrLevel, None)];
      nextSessionId := id + 1;
    }

    /** update_daily_activity for today. */
    method UpdateDailyActivity(today: int, durationSeconds: int, xpEarned: int,
                               wordsLearned: int, exercisesCompleted: int)
      modifies this`dailyActivity
      ensures dailyActivity == UpsertDaily(old(dailyActivity), today,
                 SessionTotals(durationSeconds, xpEarned, wordsLearned, exercisesCompleted))
    {
      if today in dailyActivity {
        var e := dailyActivity[today];
        dailyActivity := dailyActivity[today := e.(
          totalSeconds := e.totalSeconds + durationSeconds, xpEarned := e.xpEarned + xpEarned,
          wordsLearned := e.wordsLearned + wordsLearned,
          exercisesCompleted := e.exercisesCompleted + exercisesCompleted,
          sessionsCount := e.sessionsCount + 1, active := true)];
      } else {
        dailyActivity := dailyActivity[today := DailyRecord(
          durationSeconds, xpEarned, wordsLearned, exercisesCompleted, 1, true)];
      }
    }

    /** get_streak_info: the streak columns of the stats row. */
    function GetStreakInfo(): (r: StreakInfo)
      reads this`userStats
      ensures r.currentStreak == userStats.streakDays && r.longestStreak == userStats.longestStreak
              && r.lastActivity == userStats.lastActivityDate
    {
      StreakInfo(userStats.streakDays, userStats.longestStreak, userStats.lastActivityDate)
    }

    /** update_streak, reading the stored last activity date. */
    method UpdateStreak(today: int, sessionDurationSeconds: int)
      requires Valid()
      modifies this`userStats
      ensures Valid()
      ensures userStats == StreakAfter(old(userStats), today, sessionDurationSeconds)
    {
      if sessionDurationSeconds < MinimumSessionSeconds {
        return;
      }
      var stats := userStats;
      match stats.lastActivityDate {
        case Some(last) =>
          var daysDiff := today - last;
          if daysDiff == 0 {
          } else if daysDiff == 1 {
            var newStreak := stats.streakDays + 1;
            var longest := Max(stats.longestStreak, newStreak);
            userStats := userStats.(streakDays := newStreak, longestStreak := longest);
          } else {
            userStats := userStats.(streakDays := 1);
          }
        case None =>
          userStats := userStats.(streakDays := 1);
      }
    }

    /** end_session: records the end of the session, adds its duration to
        the study time, sets the last activity date to today, then updates
        today's activity and the streak. Because the date is written first,
        the streak update always sees a gap of 0 and changes nothing. */
    method EndSession(sessionId: int, xpEarned: int, wordsLearned: int, exercisesCompleted: int,
                      mistakesMade: int, notes: string, now: int, today: int) returns (o: Outcome)
      requires Valid()
      modifies this`sessions, this`userStats, this`dailyActivity
      ensures Valid()
      ensures sessionId !in old(sessions) ==>
                o == Fail(NoSuchSession) && sessions == old(sessions)
                && userStats == old(userStats) && dailyActivity == old(dailyActivity)
      ensures sessionId in old(sessions) ==>
                var duration := now - old(sessions)[sessionId].startTime;
                o == Done
                && sessions == old(sessions)[sessionId := old(sessions)[sessionId].(ended := Some(SessionEnd(
                     now, duration, xpEarned, wordsLearned, exercisesCompleted, mistakesMade, notes)))]
                && userStats == old(userStats).(totalSecondsStudied := old(userStats.totalSecondsStudied) + duration,
                                                lastActivityDate := Some(today))
                && dailyActivity == UpsertDaily(old(dailyActivity), today,
                     SessionTotals(duration, xpEarned, wordsLearned, exercisesCompleted))
    {
      if sessionId !in sessions {
        return Fail(NoSuchSession);
      }
      var startTime := sessions[sessionId].startTime;
      var duration := now - startTime;
      sessions := sessions[sessionId := sessions[sessionId].(ended := Some(SessionEnd(
        now, duration, xpEarned, wordsLearned, exercisesCompleted, mistakesMade, notes)))];
      userStats := userStats.(totalSecondsStudied := userStats.totalSecondsStudied + duration,
                              lastActivityDate := Some(today));
      UpdateDailyActivity(today, duration, xpEarned, wordsLearned, exercisesCompleted);
      ghost var before := userStats;
      UpdateStreak(today, duration);
      StreakSameDay(before, today, duration);
      o := Done;
    }

    // ------------------------------------------------------------ achievements

    /** initialize_achievements: inserts every catalog entry whose name is
        not in the table yet. */
    method InitializeAchievements()
      requires Valid()
      modifies this`achievements
      ensures Valid()
      ensures achievements == InsertAll(old(achievements), Achievements)
    {
      var rows := InsertCatalog(achievements, Achievements);
      InsertAllKeepsUnique(achievements, Achievements);
      achievements := rows;
    }

    /** The category test inside the unlock loop: the progress of a streak,
        vocabulary or speaking entry, and whether it reached the requirement;
        every other category has progress 0 and never unlocks. */
    static method EvaluateAchievement(achievement: AchievementRow, stats: UserStats, totalWords: int)
      returns (shouldUnlock: bool, progress: int)
      ensures var p := ProgressInputs(stats.streakDays, totalWords, stats.totalSecondsStudied);
              progress == CategoryProgress(achievement.category, p)
              && (shouldUnlock <==> Tracked(achievement.category) && progress >= achievement.requirementValue)
    {
      shouldUnlock := false;
      progress := 0;
      if achievement.category == "streak" {
        progress := stats.streakDays;
        shouldUnlock := progress >= achievement.requirementValue;
      } else if achievement.category == "vocabulary" {
        progress := totalWords;
        shouldUnlock := progress >= achievement.requirementValue;
      } else if achievement.category == "speaking" {
        progress := stats.totalSecondsStudied / 60;
        shouldUnlock := progress >= achievement.requirementValue;
      }
    }

    /** get_achievements: unlocked entries first, then by ascending
        requirement; with `unlockedOnly` just the unlocked ones. */
    function GetAchievements(unlockedOnly: bool): (r: seq<AchievementRow>)
      reads this
      ensures forall a :: a in r <==> a in achievements && (unlockedOnly ==> a.unlocked)
      ensures |r| == if unlockedOnly then Count(achievements, (a: AchievementRow) => a.unlocked) else |achievements|
      ensures SortedBy(r, ByUnlockedThenRequirement)
    {
      var selected := if unlockedOnly then Filter(achievements, (a: AchievementRow) => a.unlocked) else achievements;
      FilterMembers(achievements, (a: AchievementRow) => a.unlocked);
      SortByMembers(selected, ByUnlockedThenRequirement);
      SortBy(selected, ByUnlockedThenRequirement)
    }

    /** The figures the unlock pass evaluates, when the vocabulary stats exist. */
    function Progress(): ProgressInputs
      reads this`userStats, this`vocabulary, this`nextVocabId
    {
      ProgressInputs(userStats.streakDays, |Rows()|, userStats.totalSecondsStudied)
    }

    /** check_and_unlock_achievements: evaluates every locked entry, unlocks
        those whose progress reached the requirement and writes the current
        progress into the others; returns the entries it unlocked as they were
        read. Fails, changing nothing, on an empty vocabulary. */
    method CheckAndUnlockAchievements(now: int) returns (r: Result<seq<AchievementRow>, DbError>)
      requires Valid()
      modifies this`achievements
      ensures Valid()
      ensures Rows() == [] ==> r == Failure(EmptyVocabulary) && achievements == old(achievements)
      ensures Rows() != [] ==> achievements == RefreshAll(old(achievements), Progress(), now)
                               && r == Success(NewlyUnlocked(old(achievements), Progress()))
    {
      var vocabStats := GetVocabularyStats();
      if vocabStats.Failure? {
        return Failure(vocabStats.error);
      }
      var rows := achievements;
      var table, newlyUnlocked := UnlockPass(rows, userStats, vocabStats.value.totalWords, now);
      RefreshKeepsNames(rows, Progress(), now);
      // The updates go to the open transaction and are committed together.
      achievements := table;
      r := Success(newlyUnlocked);
    }
  }

  /** The loop of initialize_achievements: `INSERT OR IGNORE` of each
      catalog entry in turn. */
  method InsertCatalog(rows: seq<AchievementRow>, defs: seq<AchievementDef>) returns (r: seq<AchievementRow>)
    ensures r == InsertAll(rows, defs)
  {
    r := rows;
    var i := 0;
    while i < |defs|
      invariant 0 <= i <= |defs|
      invariant r == InsertAll(rows, defs[..i])
    {
      var a := defs[i];
      assert defs[..i + 1][..i] == defs[..i];
      if !HasName(r, a.name) {
        r := r + [NewAchievementRow(a)];
      }
      i := i + 1;
    }
    assert defs[..i] == defs;
  }

  /** The loop of check_and_unlock_achievements over the rows it read:
      every locked entry is evaluated; one that reached its requirement is
      unlocked and collected, the others get the current progress.
      Unlocked entries are skipped. */
  method UnlockPass(rows: seq<AchievementRow>, stats: UserStats, totalWords: int, now: int)
    returns (table: seq<AchievementRow>, newlyUnlocked: seq<AchievementRow>)
    ensures var p := ProgressInputs(stats.streakDays, totalWords, stats.totalSecondsStudied);
            table == RefreshAll(rows, p, now) && newlyUnlocked == NewlyUnlocked(rows, p)
  {
    ghost var p := ProgressInputs(stats.streakDays, totalWords, stats.totalSecondsStudied);
    table := rows;
    newlyUnlocked := [];
    var i := 0;
    while i < |table|
      invariant 0 <= i <= |table| == |rows|
      invariant forall k :: 0 <= k < i ==> table[k] == RefreshRow(rows[k], p, now)
      invariant forall k :: i <= k < |rows| ==> table[k] == rows[k]
      invariant newlyUnlocked == NewlyUnlocked(rows[..i], p)
    {
      var achievement := table[i];
      if !achievement.unlocked {
        var shouldUnlock, progress := DatabaseManager.EvaluateAchievement(achievement, stats, totalWords);
        if shouldUnlock {
          table := table[i := achievement.(unlocked := true, unlockedAt := Some(now),
                                           progress := achievement.requirementValue)];
          newlyUnlocked := newlyUnlocked + [achievement];
        } else {
          table := table[i := achievement.(progress := progress)];
        }
      }
      UnlockStep(rows, i, p);
      i := i + 1;
    }
    assert rows[..i] == rows;
  }

  /** A pass keeps every entry's name, so the names stay unique. */
  lemma RefreshKeepsNames(rows: seq<AchievementRow>, p: ProgressInputs, now: int)
    requires UniqueNames(rows)
    ensures UniqueNames(RefreshAll(rows, p, now))
  {
  }

  /** The unlock pass extended by one entry. */
  lemma UnlockStep(rows: seq<AchievementRow>, i: int, p: ProgressInputs)
    requires 0 <= i < |rows|
    ensures NewlyUnlocked(rows[..i + 1], p)
            == NewlyUnlocked(rows[..i], p) + (if ShouldUnlock(rows[i], p) then [rows[i]] else [])
  {
    assert rows[..i + 1] == rows[..i] + [rows[i]];
    FilterAppend(rows[..i], [rows[i]], row => ShouldUnlock(row, p));
  }

  /** The accuracy of get_vocabulary_stats is a percentage unless some row's
      correct count lies outside 0 to its seen count. */
  lemma AccuracyPercent(rows: seq<VocabItem>)
    ensures var seen, correct := SumSeen(rows), SumCorrect(rows);
            var accuracy := if seen > 0 then correct as real / seen as real * 100.0 else 0.0;
            0.0 <= accuracy <= 100.0 || exists k :: 0 <= k < |rows| && !(0 <= rows[k].timesCorrect <= rows[k].timesSeen)
  {
    if forall k :: 0 <= k < |rows| ==> 0 <= rows[k].timesCorrect <= rows[k].timesSeen {
      AccuracyBounded(rows);
      var seen, correct := SumSeen(rows), SumCorrect(rows);
      if seen > 0 {
        RatioPercent(correct, seen);
      }
    }
  }

  lemma RatioPercent(c: int, s: int)
    requires 0 <= c <= s && s > 0
    ensures 0.0 <= c as real / s as real * 100.0 <= 100.0
  {
    var q := c as real / s as real;
    assert q * s as real == c as real;
  }

  /** The sums of a table whose every correct count lies between 0 and its
      seen count satisfy the same bounds. */
  lemma {:induction false} AccuracyBounded(rows: seq<VocabItem>)
    ensures (forall k :: 0 <= k < |rows| ==> 0 <= rows[k].timesCorrect <= rows[k].timesSeen) ==>
              0 <= SumCorrect(rows) <= SumSeen(rows)
  {
    if rows != [] {
      AccuracyBounded(rows[1..]);
    }
  }
}

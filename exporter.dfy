/** The statistics exporter of app/analytics/exporter.py: the milestone
    ladders and the shaping of unlocked achievements and of daily activity
    into export records. */
module Exporter {
  import opened Wrappers
  import opened Numeric
  import opened Seqs
  import opened DbManager

  // ---------------------------------------------------------------- milestones

  /** The first threshold of a descending ladder that the value reaches. */
  function Tier(value: int, ladder: seq<int>): Option<int> {
    if ladder == [] then None
    else if value >= ladder[0] then Some(ladder[0])
    else Tier(value, ladder[1..])
  }

  ghost predicate Descending(ladder: seq<int>) {
    forall j, k :: 0 <= j < k < |ladder| ==> ladder[j] > ladder[k]
  }

  /** On a descending ladder the tier is the largest threshold the value
      reaches, and there is none exactly when the value is below them all. */
  lemma {:induction false} TierIsLargestReached(value: int, ladder: seq<int>)
    requires Descending(ladder)
    ensures Tier(value, ladder).None? <==> forall k :: 0 <= k < |ladder| ==> value < ladder[k]
    ensures Tier(value, ladder).Some? ==>
              Tier(value, ladder).value in ladder && Tier(value, ladder).value <= value
              && forall k :: 0 <= k < |ladder| && ladder[k] <= value ==> ladder[k] <= Tier(value, ladder).value
  {
    if ladder != [] && value < ladder[0] {
      TierIsLargestReached(value, ladder[1..]);
      assert forall k :: 0 < k < |ladder| ==> ladder[k] == ladder[1..][k - 1];
    }
  }

  const WordLadder: seq<int> := [2000, 500, 100]
  const StreakLadder: seq<int> := [100, 30, 7]
  /** Hours of study; `total_seconds_studied / 3600 >= h` holds exactly when
      the floor of the quotient is at least h. */
  const HourLadder: seq<int> := [200, 50, 10]
  const LevelLadder: seq<int> := [25, 10]

  /** Tier on a three-rung ladder, rung by rung. */
  lemma TierOfThree(v: int, a: int, b: int, c: int)
    ensures Tier(v, [a, b, c]) == if v >= a then Some(a) else if v >= b then Some(b) else if v >= c then Some(c) else None
  {
    TierOfTwo(v, b, c);
    assert [a, b, c][1..] == [b, c];
  }

  /** Tier on a two-rung ladder, rung by rung. */
  lemma TierOfTwo(v: int, a: int, b: int)
    ensures Tier(v, [a, b]) == if v >= a then Some(a) else if v >= b then Some(b) else None
  {
    assert Tier(v, [b]) == if v >= b then Some(b) else None by {
      assert [b][1..] == [];
    }
    assert [a, b][1..] == [b];
  }

  lemma LaddersDescend()
    ensures Descending(WordLadder) && Descending(StreakLadder)
    ensures Descending(HourLadder) && Descending(LevelLadder)
  {
  }

  datatype Milestone =
    | WordsLearned(words: int)
    | StreakAchieved(days: int)
    | HoursStudied(hours: int)
    | LevelReached(cefr: string)

  /** The level milestone's label: from 25 on, A2 is reached; from 10 on,
      A1 is completed. */
  function LevelLabel(threshold: int): string {
    if threshold == 25 then "A2" else "A1"
  }

  /** The milestone of ladder `kind` (0 words, 1 streak, 2 hours, 3 level)
      at threshold t. */
  function MakeMilestone(kind: int, t: int): Milestone {
    if kind == 0 then WordsLearned(t)
    else if kind == 1 then StreakAchieved(t)
    else if kind == 2 then HoursStudied(t)
    else LevelReached(LevelLabel(t))
  }

  /** What one ladder contributes: its milestone, if a threshold was reached. */
  function Entry(kind: int, tier: Option<int>): (r: seq<Milestone>)
    ensures |r| <= 1
  {
    if tier.Some? then [MakeMilestone(kind, tier.value)] else []
  }

  /** The list _get_milestones builds: at most one entry per ladder, in the
      order words, streak, hours, level. */
  function MilestoneList(totalWords: int, longestStreak: int, totalSeconds: int, level: int): seq<Milestone> {
    Entry(0, Tier(totalWords, WordLadder)) + Entry(1, Tier(longestStreak, StreakLadder))
    + Entry(2, Tier(totalSeconds / 3600, HourLadder)) + Entry(3, Tier(level, LevelLadder))
  }

  function Kind(m: Milestone): int {
    match m
    case WordsLearned(_) => 0
    case StreakAchieved(_) => 1
    case HoursStudied(_) => 2
    case LevelReached(_) => 3
  }

  /** At most four milestones, one of each kind, in ladder order. */
  lemma MilestoneListShape(totalWords: int, longestStreak: int, totalSeconds: int, level: int)
    ensures var ms := MilestoneList(totalWords, longestStreak, totalSeconds, level);
            |ms| <= 4 && forall j, k :: 0 <= j < k < |ms| ==> Kind(ms[j]) < Kind(ms[k])
  {
    var a := Entry(0, Tier(totalWords, WordLadder));
    var b := Entry(1, Tier(longestStreak, StreakLadder));
    var c := Entry(2, Tier(totalSeconds / 3600, HourLadder));
    var d := Entry(3, Tier(level, LevelLadder));
    var ms := a + b + c + d;
    forall j, k | 0 <= j < k < |ms| ensures Kind(ms[j]) < Kind(ms[k]) {
      assert forall i :: 0 <= i < |a| ==> ms[i] == a[i] && Kind(ms[i]) == 0;
      assert forall i :: |a| <= i < |a| + |b| ==> ms[i] == b[i - |a|] && Kind(ms[i]) == 1;
      assert forall i :: |a| + |b| <= i < |a| + |b| + |c| ==> ms[i] == c[i - |a| - |b|] && Kind(ms[i]) == 2;
      assert forall i :: |a| + |b| + |c| <= i < |ms| ==> ms[i] == d[i - |a| - |b| - |c|] && Kind(ms[i]) == 3;
    }
  }

  /** The streak milestone follows the longest streak, whatever the current
      one is: 45 days at best earn the 30-day milestone. */
  lemma StreakMilestoneExample()
    ensures Tier(45, StreakLadder) == Some(30)
    ensures Tier(6, StreakLadder) == None
    ensures Tier(720000 / 3600, HourLadder) == Some(200)
  {
    TierOfThree(45, 100, 30, 7);
    TierOfThree(6, 100, 30, 7);
    TierOfThree(200, 200, 50, 10);
  }

  /** The words branch of _get_milestones: 2000, else 500, else 100 words. */
  method WordsEntry(totalWords: int) returns (e: seq<Milestone>)
    ensures e == Entry(0, Tier(totalWords, WordLadder))
  {
    TierOfThree(totalWords, 2000, 500, 100);
    if totalWords >= 2000 {
      e := [WordsLearned(2000)];
    } else if totalWords >= 500 {
      e := [WordsLearned(500)];
    } else if totalWords >= 100 {
      e := [WordsLearned(100)];
    } else {
      e := [];
    }
  }

  /** The streak branch: 100, else 30, else 7 days of longest streak. */
  method StreakEntry(longestStreak: int) returns (e: seq<Milestone>)
    ensures e == Entry(1, Tier(longestStreak, StreakLadder))
  {
    TierOfThree(longestStreak, 100, 30, 7);
    if longestStreak >= 100 {
      e := [StreakAchieved(100)];
    } else if longestStreak >= 30 {
      e := [StreakAchieved(30)];
    } else if longestStreak >= 7 {
      e := [StreakAchieved(7)];
    } else {
      e := [];
    }
  }

  /** The hours branch: 200, else 50, else 10 whole hours. */
  method HoursEntry(totalSeconds: int) returns (e: seq<Milestone>)
    ensures e == Entry(2, Tier(totalSeconds / 3600, HourLadder))
  {
    var totalHours := totalSeconds / 3600;
    TierOfThree(totalHours, 200, 50, 10);
    if totalHours >= 200 {
      e := [HoursStudied(200)];
    } else if totalHours >= 50 {
      e := [HoursStudied(50)];
    } else if totalHours >= 10 {
      e := [HoursStudied(10)];
    } else {
      e := [];
    }
  }

  /** The level branch: A2 from level 25, else A1 from level 10. */
  method LevelEntry(level: int) returns (e: seq<Milestone>)
    ensures e == Entry(3, Tier(level, LevelLadder))
  {
    TierOfTwo(level, 25, 10);
    if level >= 25 {
      e := [LevelReached("A2")];
    } else if level >= 10 {
      e := [LevelReached("A1")];
    } else {
      e := [];
    }
  }

  /** _get_milestones on the figures it reads: the vocabulary size, the
      longest streak, the study seconds and the stored level, appended
      ladder by ladder. */
  method GetMilestones(totalWords: int, longestStreak: int, totalSeconds: int, level: int)
    returns (milestones: seq<Milestone>)
    ensures milestones == MilestoneList(totalWords, longestStreak, totalSeconds, level)
    ensures |milestones| <= 4
  {
    milestones := WordsEntry(totalWords);
    var e := StreakEntry(longestStreak);
    milestones := milestones + e;
    e := HoursEntry(totalSeconds);
    milestones := milestones + e;
    e := LevelEntry(level);
    milestones := milestones + e;
  }

  /** The milestones of the stored statistics; reading the vocabulary
      statistics raises on an empty vocabulary. */
  method ExportMilestones(db: DatabaseManager) returns (r: Result<seq<Milestone>, DbError>)
    ensures db.Rows() == [] ==> r == Failure(EmptyVocabulary)
    ensures db.Rows() != [] ==>
              r == Success(MilestoneList(|db.Rows()|, db.userStats.longestStreak,
                                         db.userStats.totalSecondsStudied, db.userStats.currentLevel))
  {
    var vocabStats := db.GetVocabularyStats();
    if vocabStats.Failure? {
      return Failure(vocabStats.error);
    }
    var ms := GetMilestones(vocabStats.value.totalWords, db.userStats.longestStreak,
                            db.userStats.totalSecondsStudied, db.userStats.currentLevel);
    r := Success(ms);
  }

  // ---------------------------------------------------------------- achievements

  /** An exported achievement: its title, description, category and the
      date part of its unlock time (the icon column is not modelled). */
  datatype AchievementRecord = AchievementRecord(
    name: string, description: string, unlockedOn: Option<int>, category: string)

  /** `unlocked_at[:10]` is the date of the unlock timestamp; an empty one
      gives None. */
  function RecordOf(a: AchievementRow): AchievementRecord {
    AchievementRecord(a.title, a.description,
                      if a.unlockedAt.Some? then Some(DayOf(a.unlockedAt.value)) else None, a.category)
  }

  /** _get_achievements_stats: one record per unlocked achievement, in the
      order get_achievements returns them. */
  function ExportAchievements(db: DatabaseManager): (r: seq<AchievementRecord>)
    reads db
    ensures |r| == Count(db.achievements, (a: AchievementRow) => a.unlocked)
    ensures forall k :: 0 <= k < |r| ==>
              var a := db.GetAchievements(true)[k];
              a.unlocked && a in db.achievements && r[k].name == a.title && r[k].category == a.category
              && r[k].description == a.description
              && r[k].unlockedOn == if a.unlockedAt.Some? then Some(DayOf(a.unlockedAt.value)) else None
  {
    var rows := db.GetAchievements(true);
    assert forall k :: 0 <= k < |rows| ==> rows[k] in rows;
    MapSeq(rows, RecordOf)
  }

  // ---------------------------------------------------------------- daily activity

  /** A set of dates in ascending order, smallest first. */
  ghost function SortedDates(s: set<int>): seq<int>
    decreases |s|
  {
    if s == {} then []
    else
      var x := Least(s);
      [x] + SortedDates(s - {x})
  }

  /** The smallest element of a non-empty set. */
  ghost function Least(s: set<int>): (x: int)
    requires s != {}
    ensures x in s && forall y :: y in s ==> x <= y
  {
    MinimumExists(s);
    var x :| x in s && forall y :: y in s ==> x <= y;
    x
  }

  /** The sorted dates are exactly the set's, each once, ascending. */
  lemma {:induction false} SortedDatesOrdered(s: set<int>)
    ensures |SortedDates(s)| == |s|
    ensures forall d :: d in SortedDates(s) <==> d in s
    ensures forall j, k :: 0 <= j < k < |SortedDates(s)| ==> SortedDates(s)[j] < SortedDates(s)[k]
    decreases |s|
  {
    if s != {} {
      var x := Least(s);
      var t := s - {x};
      var rest := SortedDates(t);
      SortedDatesOrdered(t);
      var r := SortedDates(s);
      assert r == [x] + rest;
      assert |t| == |s| - 1;
      forall d ensures d in r <==> d in s {
        assert d in r <==> d == x || d in rest;
      }
      forall j, k | 0 <= j < k < |r| ensures r[j] < r[k] {
        assert r[k] == rest[k - 1];
        assert rest[k - 1] in t;
        if j > 0 {
          assert r[j] == rest[j - 1];
        }
      }
    }
  }

  lemma {:induction false} MinimumExists(s: set<int>)
    requires s != {}
    ensures exists x :: x in s && forall y :: y in s ==> x <= y
    decreases |s|
  {
    if forall z :: z !in s {
      assert false;
    }
    var z :| z in s;
    var t := s - {z};
    if t != {} {
      MinimumExists(t);
      var m :| m in t && forall y :: y in t ==> m <= y;
      var least := Min(z, m);
      forall y | y in s ensures least <= y {
        if y != z {
          assert y in t;
        }
      }
      assert least in s;
    } else {
      assert forall y :: y in s ==> y == z || y in t;
    }
  }

  /** An exported day: minutes are the seconds / 60 rounded half to even. */
  datatype DailyExport = DailyExport(date: int, minutes: int, xp: int, words: int, exercises: int, active: bool)

  function DayRecord(m: map<int, DailyRecord>, d: int): DailyExport
    requires d in m
  {
    DailyExport(d, RoundHalfEven(m[d].totalSeconds, 60), m[d].xpEarned, m[d].wordsLearned,
                m[d].exercisesCompleted, m[d].active)
  }

  function DayRecords(m: map<int, DailyRecord>, dates: seq<int>): (r: seq<DailyExport>)
    requires forall k :: 0 <= k < |dates| ==> dates[k] in m
    ensures |r| == |dates|
    ensures forall k :: 0 <= k < |dates| ==> r[k] == DayRecord(m, dates[k])
  {
    if dates == [] then [] else [DayRecord(m, dates[0])] + DayRecords(m, dates[1..])
  }

  /** The dates of `WHERE date >= cutoff`. */
  ghost function DatesFrom(m: map<int, DailyRecord>, cutoff: int): set<int> {
    set d | d in m && d >= cutoff
  }

  /** The window's dates in ascending order: the `ORDER BY date` of
      _get_daily_activity_stats. */
  ghost function WindowDates(m: map<int, DailyRecord>, cutoff: int): (dates: seq<int>)
    ensures |dates| == |DatesFrom(m, cutoff)|
    ensures forall k :: 0 <= k < |dates| ==> dates[k] in m && dates[k] >= cutoff
    ensures forall d :: d in m && d >= cutoff ==> d in dates
    ensures forall j, k :: 0 <= j < k < |dates| ==> dates[j] < dates[k]
  {
    var dates := SortedDates(DatesFrom(m, cutoff));
    SortedDatesOrdered(DatesFrom(m, cutoff));
    WindowMembers(m, cutoff, dates);
    dates
  }

  /** _get_daily_activity_stats: the days from `today - days` on, oldest
      first, each with its rounded minutes. */
  ghost function ExportDailyActivity(m: map<int, DailyRecord>, today: int, days: int): seq<DailyExport> {
    DayRecords(m, WindowDates(m, today - days))
  }

  /** The export is the window's days, oldest first, one record each, with
      each day's minutes its seconds divided by 60 to the nearest whole. */
  lemma DailyActivityInOrder(m: map<int, DailyRecord>, today: int, days: int)
    ensures var r := ExportDailyActivity(m, today, days);
            |r| == |DatesFrom(m, today - days)|
            && (forall k :: 0 <= k < |r| ==> r[k].date in m && r[k].date >= today - days)
            && (forall j, k :: 0 <= j < k < |r| ==> r[j].date < r[k].date)
            && (forall k :: 0 <= k < |r| ==>
                  r[k].date in m && -60 <= 2 * (m[r[k].date].totalSeconds - 60 * r[k].minutes) <= 60)
  {
    var dates := WindowDates(m, today - days);
    var r := DayRecords(m, dates);
    assert forall k :: 0 <= k < |r| ==> r[k] == DayRecord(m, dates[k]);
  }

  /** Every day of the window is exported. */
  lemma DailyActivityComplete(m: map<int, DailyRecord>, today: int, days: int)
    ensures var r := ExportDailyActivity(m, today, days);
            forall d :: d in m && d >= today - days ==> exists k :: 0 <= k < |r| && r[k].date == d
  {
    var dates := WindowDates(m, today - days);
    var r := ExportDailyActivity(m, today, days);
    assert r == DayRecords(m, dates);
    forall d | d in m && d >= today - days ensures exists k :: 0 <= k < |r| && r[k].date == d {
      var k := PositionOf(dates, d);
      assert r[k].date == d;
    }
  }

  /** A sequence holding exactly the window's dates holds dates of the
      window, and every one of them. */
  lemma WindowMembers(m: map<int, DailyRecord>, cutoff: int, dates: seq<int>)
    requires forall d :: d in dates <==> d in DatesFrom(m, cutoff)
    ensures forall k :: 0 <= k < |dates| ==> dates[k] in m && dates[k] >= cutoff
    ensures forall d :: d in m && d >= cutoff ==> d in dates
  {
    forall k | 0 <= k < |dates| ensures dates[k] in m && dates[k] >= cutoff {
      var d := dates[k];
      assert d in dates;
      assert d in DatesFrom(m, cutoff);
    }
    forall d | d in m && d >= cutoff ensures d in dates {
      assert d in DatesFrom(m, cutoff);
    }
  }

}

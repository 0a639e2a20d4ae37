# German-learning-Tool: the learner-progression core in Dafny

This project models how a learner progresses in the German-learning-Tool, a Streamlit app for studying German. The model covers:

- the spaced-repetition review of vocabulary, a modified SM-2;
- the formula levels and the XP awards;
- the daily streak and the daily-activity table;
- the achievement catalogue and its unlock pass;
- the queues and counters of a vocabulary session and the quiz questions built from it;
- Otto von Lehrer's role-play conversations;
- the milestone and activity export;
- the deterministic message choices of the buddy;
- the parts of the LLM client that involve no network.

A module stands for each source file:

| module | source file | form |
|---|---|---|
| `Config` | app/config.py | constants and lemmas about them |
| `DbManager` | app/database/db_manager.py | a `DatabaseManager` class whose tables are fields |
| `XpSystem` | app/gamification/xp_system.py | functions, loop methods and `AwardXp` over the database |
| `Srs` | app/gamification/srs.py | a `SpacedRepetitionSystem` class holding the database |
| `Vocabulary` | app/learning/vocabulary.py | a `VocabularyLearner` class with the session counters |
| `Conversation` | app/buddy/conversation.py | a `ConversationManager` class with history and corrections |
| `Exporter` | app/analytics/exporter.py | ladder methods and record functions |
| `Personality` | app/buddy/personality.py | pure selection functions |
| `LlmManager` | app/models/llm_manager.py | request defaults, the reply parser and the mock |

`Wrappers`, `Numeric`, `Seqs` and `Strings` are shared helpers:

- `Option` and `Result`;
- an exact integer square root and truncating division;
- filtering, stable sorting and Python-style slicing;
- substring search, `replace`, `split`, `strip` and decimal printing.

Representation choices:

- **Tables.** SQL tables are fields of `DatabaseManager`:
  - `vocabulary` and `sessions` are maps keyed by id;
  - `dailyActivity` is a map keyed by day number;
  - `achievements` is a sequence in insertion order;
  - `userStats` is the singleton row.
- **Time.** Every "now" and "today" is an integer parameter: seconds since the epoch and days since the epoch.
- **Numbers.** Floating-point values become fixed point or rationals:
  - the ease factor is in hundredths, so 1.3 is 130 and 2.5 is 250;
  - `int(100 * n ** 1.5)` is `Isqrt(10000 * n^3)`;
  - accuracies and percentages are `real`s, and the summary accuracy is in tenths.
- **Randomness.** `random.shuffle` and `random.choice` become caller-supplied pick sequences. The result is then "some permutation" or "some element".
- **XPSystem.** It holds nothing but the database handle, so its stateful operations are module-level members that take the database as a parameter.
- **Exceptions.** An exception that rolls back a transaction becomes a `Failure`, and the state it would have changed stays as it was.

Source behaviour the model keeps, as the code has it:

- **Level formula vs. table.** Levels come from the formula `100·n^1.5`, so 1842 xp is level 6. The level-7 threshold is 1852, not the table's 1747 (`DbManager.LevelSixRange`). `get_current_level_info` then measures the stored formula level against `LEVEL_XP_REQUIREMENTS`. For totals from 347 to 518 xp its percentage exceeds 100 (`XpSystem.LevelInfoOverflows`).
- **Streak after `end_session`.** `end_session` writes today's date as the last activity before it calls the streak update. That update therefore sees a gap of 0 and never changes the streak along this path (`DbManager.DatabaseManager.EndSession`).
- **Empty vocabulary.** On an empty vocabulary table `SUM` is NULL, and `get_vocabulary_stats` raises on `None > 0`. Everything that reads those statistics fails the same way (`DbManager.DatabaseManager.GetVocabularyStats`):
  - the achievement check;
  - `award_xp`, after its xp is already stored;
  - the learner's `end_session`, which then keeps its session id;
  - the milestone export.
- **`bulk_add_words`.** It passes `word` both by name and inside `**word_data`, so every call raises and the count is always 0 (`Srs.SpacedRepetitionSystem.BulkAddWords`).
- **Choice count.** With `num_choices <= 0`, the slice `[:num_choices - 1]` drops from the end, and the question has more choices than asked (`Vocabulary.VocabularyLearner.MultipleChoiceMode`).
- **Review flags.** An `again` review resets the interval to 1, so it clears `mastered`.
- **Untracked categories.** `milestone`, `writing` and `exam` achievements never progress and never unlock.
- **Prompt level.** The scenario records carry no `cefr_level` key, so the conversation prompt always names level A1.
- **Flashcard hint.** An English-to-German flashcard's hint renders a missing gender or part of speech as `None`.

## Model

| member | source | states |
|---|---|---|
| Config.LevelTableIncreasing | app/config.py:132-164 | the level table has 30 entries, starts at 0 for level 1 and is strictly increasing |
| Config.FormulaAtOne | app/config.py:131 | the commented formula gives 100 xp for level 1 |
| Config.FormulaAtTwo | app/config.py:131 | the formula gives 282 xp for level 2 |
| Config.FormulaAtThree | app/config.py:131 | the formula gives 519 xp for level 3 |
| Config.LevelTableIsNotFormula | app/config.py:131-164 | the table disagrees with its own formula at levels 1 (0 vs 100) and 2 (141 vs 282) |
| Config.LevelFormulaMonotone | app/config.py:131 | the formula threshold never decreases with the level |
| Config.FormulaStrict | app/config.py:131 | from level 1 on, each formula threshold is strictly above the previous one |
| Config.FormulaAboveTable | app/config.py:131-163 | the formula at level 31 lies above the table's last entry (15875) |
| Config.CefrRangesContiguous | app/config.py:167-172 | four non-empty CEFR ranges, each starting one after the previous ends, covering exactly 1..70 |
| Config.XpTablePositive | app/config.py:108-128 | every configured XP amount is positive |
| Config.AchievementsWellFormed | app/config.py:197-259 | 24 achievements with pairwise distinct names and positive requirement and reward |
| DbManager.DayOf | app/gamification/srs.py:111 | the day number of a timestamp is the day whose 86400 seconds contain it |
| DbManager.ParseGrade | app/database/db_manager.py:202-220 | recognises exactly the four difficulty strings, and none else |
| DbManager.Review | app/database/db_manager.py:196-242 | one review: times_seen +1; `again` adds to incorrect and the others add to correct; an ease in [1.3, 2.5] stays there; mastered iff interval > 21; next review is now + interval days; the word's other columns are kept |
| DbManager.ReviewKeepsSchedule | app/database/db_manager.py:202-226 | a review keeps the ease within [1.3, 2.5] and the interval at least 1 |
| DbManager.GradesOrderIntervals | app/database/db_manager.py:202-220 | for a word recalled before, the intervals order again ≤ hard ≤ good ≤ easy, and hard never shortens the interval |
| DbManager.ReviewsKeepSchedule | app/database/db_manager.py:196-242 | any run of reviews keeps the schedule well formed, keeps the word's entry and raises times_seen by the number of reviews |
| DbManager.ReviewExamples | app/database/db_manager.py:212-226 | ease 2.5, interval 10, reps 3, graded good: interval 25, reps 4, mastered; ease 1.3, graded again: ease stays 1.3, interval 1, reps 0 |
| DbManager.EaseAfter | app/database/db_manager.py:202-218 | the ease of each grade: −20, −15, unchanged or +15 hundredths, clamped to [130, 250]; its bounds are stated by DbManager.ReviewKeepsSchedule |
| DbManager.IntervalAfter | app/database/db_manager.py:202-218 | the interval of each grade, truncated as `int(...)` truncates, with 1 and 3 for a new word; its order and lower bound are stated by DbManager.GradesOrderIntervals and DbManager.ReviewKeepsSchedule |
| DbManager.LevelClimb | app/database/db_manager.py:124-131 | the upward climb stops at a level in 1..70 whose threshold is reached (or 1), below every higher threshold |
| DbManager.LevelFor | app/database/db_manager.py:122-131 | the level is in 1..70; above 1 its formula threshold is reached; every higher level's threshold lies above the xp |
| DbManager.LevelUnique | app/database/db_manager.py:122-131 | the three properties of the level determine it uniquely |
| DbManager.LevelMonotone | app/database/db_manager.py:122-131 | more xp never gives a lower level |
| DbManager.LevelBetween | app/database/db_manager.py:122-131 | the level is k exactly when xp lies in [T(k), T(k+1)) |
| DbManager.LevelOneBelow282 | app/database/db_manager.py:124-128 | every total below 282 xp is level 1 |
| DbManager.LevelSixRange | app/database/db_manager.py:122-131 | every total from 1469 to 1851 xp is level 6 (so 1842 xp is level 6) |
| DbManager.FormulaAtSix | app/database/db_manager.py:126 | the formula threshold of level 6 is 1469 |
| DbManager.FormulaAtSeven | app/database/db_manager.py:126 | the formula threshold of level 7 is 1852 |
| DbManager.StreakAfter | app/database/db_manager.py:395-429 | a session under 600 s changes nothing; only the streak and the longest streak change; the longest never drops and changes only after yesterday's activity; the streak grows by one exactly after yesterday's activity (or goes from 0 to 1); a streak within max(longest, 1) stays within it |
| DbManager.StreakCases | app/database/db_manager.py:412-429 | for a long enough session: no last date gives streak 1; yesterday gives streak + 1 and longest = max(longest, streak + 1); any other earlier or later date gives streak 1 |
| DbManager.StreakSameDay | app/database/db_manager.py:416-418 | a second session on the day of the recorded activity changes nothing |
| DbManager.StreakExample | app/database/db_manager.py:419-423 | streak 5, last activity yesterday, a 15-minute session: streak 6 and longest max(longest, 6) |
| DbManager.UpsertDaily | app/database/db_manager.py:363-393 | today's record adds the session's seconds, xp, words and exercises, counts one more session and is active; a new day starts at those values with one session; other days are untouched |
| DbManager.UpsertCommutes | app/database/db_manager.py:375-393 | recording two sessions in either order gives the same table |
| DbManager.NewAchievementRow | app/database/db_manager.py:450-462 | a catalogue entry becomes a locked row with its name and requirement |
| DbManager.InsertAbsent | app/database/db_manager.py:450-462 | `INSERT OR IGNORE`: an existing name leaves the rows as they were, a new one appends its row; names stay unique |
| DbManager.InsertAll | app/database/db_manager.py:449-462 | INSERT OR IGNORE of each catalogue entry in turn; stated by DbManager.InsertAllProperties and the lemmas after it |
| DbManager.InsertAllProperties | app/database/db_manager.py:444-462 | initializing keeps the existing rows in front, holds every catalogue name afterwards and keeps names unique |
| DbManager.InsertAllKeepsUnique | app/database/db_manager.py:444-462 | initializing from no duplicate names leaves none |
| DbManager.InsertAllIdempotent | app/database/db_manager.py:444-462 | initializing twice is the same as initializing once |
| DbManager.InsertAllPresent | app/database/db_manager.py:444-462 | initializing changes nothing when every catalogue name is present |
| DbManager.CategoryProgress | app/database/db_manager.py:477-492 | progress is the streak, the word count or the studied minutes, and 0 for every other category |
| DbManager.RefreshRow | app/database/db_manager.py:475-507 | an unlocked row is untouched; a locked one unlocks iff progress ≥ requirement, then with progress = requirement and the unlock time; otherwise it takes the current progress |
| DbManager.RefreshAll | app/database/db_manager.py:475-507 | the pass refreshes every row in place, one for one |
| DbManager.NewlyUnlocked | app/database/db_manager.py:495-511 | the returned rows are exactly the rows that unlock in this pass, as read before it |
| DbManager.SecondPassUnlocksNothing | app/database/db_manager.py:464-511 | an immediate second pass returns nothing, and no unlocked row is locked again |
| DbManager.UnlockExample | app/database/db_manager.py:485-502 | a 100-word entry unlocks once the vocabulary holds 100 words, and only once |
| DbManager.ItemsBelow | app/database/db_manager.py:166-170 | the rows of ids below n, each a row of the table |
| DbManager.ItemsBelowComplete | app/database/db_manager.py:166-170 | every row with an id below n is listed |
| DbManager.DatabaseManager.constructor | app/database/db_manager.py:53-83 | a fresh database: empty tables and the default user_stats row |
| DbManager.DatabaseManager.Rows | app/database/db_manager.py:166 | the vocabulary table as a list of its rows |
| DbManager.DatabaseManager.RowsComplete | app/database/db_manager.py:166 | the list has one entry per row and holds every row |
| DbManager.DatabaseManager.CalculateLevel | app/database/db_manager.py:122-131 | the loop returns LevelFor(xp), within 1..70 |
| DbManager.WithXp | app/database/db_manager.py:101-111 | the stats row add_xp writes: the total plus xp and the level recomputed from it, every other column kept |
| DbManager.DatabaseManager.AddXp | app/database/db_manager.py:99-120 | total becomes old total + xp; the level is recomputed from the new total; leveled_up iff new level > old; a gain never lowers the level |
| DbManager.DatabaseManager.AddVocabulary | app/database/db_manager.py:137-159 | a known word leaves the table alone (id 0); a new word gets the next id, is due at once and carries the given fields and the schema defaults |
| DbManager.DatabaseManager.GetVocabularyByLevel | app/database/db_manager.py:161-170 | exactly the table's words of that level, each as often as the table holds it (so once each under the table invariant), as many as the level counts, newest first |
| DbManager.DatabaseManager.GetDueReviews | app/database/db_manager.py:172-184 | a sub-multiset of the due, unmastered rows (no row twice under the table invariant), earliest first; min(limit, due count) of them, all of them for a negative limit; every due row left out is due no earlier than every row kept |
| DbManager.DatabaseManager.GetVocabularyById | app/database/db_manager.py:193-194 | the row with that id, or None when there is none |
| DbManager.DatabaseManager.UpdateVocabularyReview | app/database/db_manager.py:186-242 | an unknown id or an unknown difficulty fails and leaves the table unchanged; otherwise only that row changes, to its Review |
| DbManager.DatabaseManager.GetVocabularyStats | app/database/db_manager.py:244-280 | fails exactly on an empty table; otherwise the word count, the mastered count, one per-level count for exactly the levels present, and the accuracy SUM(correct) / SUM(seen) · 100 (0 when nothing was seen), a percentage unless some row's counters are out of order |
| DbManager.DatabaseManager.CreateSession | app/database/db_manager.py:286-294 | a new session row with the next id, the start time and no end |
| DbManager.DatabaseManager.UpdateDailyActivity | app/database/db_manager.py:363-393 | the daily table becomes its upsert for today |
| DbManager.DatabaseManager.UpdateStreak | app/database/db_manager.py:395-429 | the stats row becomes StreakAfter of the stored row |
| DbManager.DatabaseManager.EndSession | app/database/db_manager.py:296-336 | an unknown session fails and changes nothing; otherwise the session is closed with its duration, study time grows by it, today becomes the last activity, today's record is upserted, and the streak stays as it was |
| DbManager.DatabaseManager.InitializeAchievements | app/database/db_manager.py:444-462 | the achievements become the catalogue inserted entry by entry, and names stay unique |
| DbManager.DatabaseManager.EvaluateAchievement | app/database/db_manager.py:477-492 | progress is the category's progress; unlock iff the category is tracked and progress reaches the requirement |
| DbManager.DatabaseManager.GetStreakInfo | app/database/db_manager.py:431-438 | the current streak, the longest streak and the last activity date of the stats row |
| DbManager.DatabaseManager.GetAchievements | app/database/db_manager.py:513-523 | all rows, or only unlocked ones, each once, unlocked first and then by requirement |
| DbManager.DatabaseManager.CheckAndUnlockAchievements | app/database/db_manager.py:464-511 | fails on an empty vocabulary and leaves the achievements alone; otherwise every row is refreshed and the newly unlocked rows are returned as read |
| DbManager.InsertCatalog | app/database/db_manager.py:449-462 | the loop inserts the catalogue entry by entry |
| DbManager.UnlockPass | app/database/db_manager.py:475-511 | the loop's table is the refreshed rows and its list the newly unlocked ones |
| DbManager.AccuracyPercent | app/database/db_manager.py:266-273 | the accuracy is in [0, 100] unless some row's correct count lies outside 0..seen |
| XpSystem.AwardAmount | app/gamification/xp_system.py:36-45 | the table amount, times the value for a per-minute action with a truthy value, else the value or 0; stated by the three lemmas below |
| XpSystem.AwardIgnoresValue | app/gamification/xp_system.py:36-41 | a configured non-per-minute action gets its table amount whatever the value |
| XpSystem.AwardScalesPerMinute | app/gamification/xp_system.py:36-41 | a per-minute action with a nonzero value gets value × its amount |
| XpSystem.AwardCustom | app/gamification/xp_system.py:43-45 | an unknown action gets the value, 0 when absent |
| XpSystem.AwardExamples | app/gamification/xp_system.py:36-45 | 3 minutes of conversation give 24, a value of 0 gives the base 8, and an unknown action gives its value or 0 |
| XpSystem.XpForLevelStep | app/gamification/xp_system.py:88-93 | from level 1 on, each level needs more xp than the one before, across the seam from the table to the formula |
| XpSystem.XpForLevelIncreasing | app/gamification/xp_system.py:88-93 | the thresholds increase strictly from level 1 upward |
| XpSystem.ThresholdSourcesDiffer | app/gamification/xp_system.py:88-93 | level 2 needs 141 here and 282 by the level formula |
| XpSystem.XpForLevel | app/gamification/xp_system.py:88-93 | the table entry for levels 1..30, the formula for other levels from 0, and None where `level ** 1.5` is complex; stated by the lemmas above |
| XpSystem.CefrForLevel | app/gamification/xp_system.py:95-100 | 1–10 A1, 11–25 A2, 26–45 B1, everything else (including ≤ 0 and > 70) B2 |
| XpSystem.CefrWalk | app/gamification/xp_system.py:97-100 | the loop over the ranges agrees with that mapping |
| XpSystem.LevelInfoShape | app/gamification/xp_system.py:58-86 | the info exists iff the stored level is ≥ 0; then it reports the stored level, the stored xp, T(level) and T(level+1) from _get_xp_for_level, the CEFR level of the stored level and max level 70; from level 1 the gap needed = T(level+1) − T(level) is positive, progress = xp − T(level), and the percentage is progress / needed · 100 |
| XpSystem.LevelInfoAtZero | app/gamification/xp_system.py:70-71 | at stored level 0 the gap is 0 and the percentage is 100 |
| XpSystem.LevelInfoAboveTable | app/gamification/xp_system.py:58-93 | above the table, a level matching the xp by formula has a percentage in [0, 100) |
| XpSystem.LevelInfoOverflows | app/gamification/xp_system.py:58-93 | totals from 347 to 518 are stored as level 2, and their percentage is above 100 |
| XpSystem.LevelInfoFor | app/gamification/xp_system.py:58-86 | the level info of a stats row; XpSystem.LevelInfoShape states that it holds the stored level and xp and the thresholds T(level) and T(level+1), and the lemmas after it bound the percentage |
| XpSystem.GetCurrentLevelInfo | app/gamification/xp_system.py:58-86 | the level info of the stored stats |
| XpSystem.LedgerClosed | app/gamification/xp_system.py:135-186 | a finished breakdown without the bonus adds up to the total, with no negative line |
| XpSystem.LedgerClosedByBonus | app/gamification/xp_system.py:188-192 | the perfect-score line closes the breakdown and its sum then includes the bonus |
| XpSystem.Earned | app/gamification/xp_system.py:139-180 | a count of 0 or below earns nothing, and a non-negative rate never earns a negative amount |
| XpSystem.Record | app/gamification/xp_system.py:139-180 | one activity adds count × rate and appends its line only for a positive count, keeping the ledger |
| XpSystem.ActivityBreakdown | app/gamification/xp_system.py:135-180 | the activity total is speaking × 5, writing × rate by words, vocabulary and grammar at their rates, and the lines add up to it |
| XpSystem.CalculateSessionXp | app/gamification/xp_system.py:117-197 | the total is SessionXpTotal; the lines sum to it, none negative; the last line is the perfect bonus iff perfect_score |
| XpSystem.SessionXpTotal | app/gamification/xp_system.py:117-197 | the activity xp plus the login bonus, then a tenth more for a perfect score; XpSystem.CalculateSessionXp computes it and the lemmas below state its properties |
| XpSystem.SessionXpNonNegative | app/gamification/xp_system.py:135-192 | a session never earns negative xp |
| XpSystem.PerfectBonusIncludesLogin | app/gamification/xp_system.py:182-192 | the bonus is a tenth of the total after the login bonus |
| XpSystem.NonPositiveCountsIgnored | app/gamification/xp_system.py:139-180 | clearing counts of 0 or below leaves the total unchanged |
| XpSystem.SessionXpExample | app/gamification/xp_system.py:117-197 | 10 minutes speaking, 2 short texts, 12 right and 3 wrong words, first session and perfect score: 199 xp |
| XpSystem.AwardXp | app/gamification/xp_system.py:22-56 | add_xp receives the award amount, labelled with the reason or the action; on an empty vocabulary the xp stays added and the call fails; otherwise the achievements are refreshed and returned with add_xp's fields |
| Srs.WordAccuracy | app/gamification/srs.py:94-99 | correct / seen · 100, 0 for an unseen word; stated by Srs.WordAccuracyBounded |
| Srs.WordAccuracyBounded | app/gamification/srs.py:94-99 | 0 when unseen and otherwise correct/seen·100, in [0, 100] when correct ≤ seen, and 100 iff every review was correct |
| Srs.ReviewKeepsAccuracyBounded | app/gamification/srs.py:65-99 | a stored review keeps a bounded accuracy bounded |
| Srs.Recommend | app/gamification/srs.py:156-157 | recommended reviews = min(due, 100) and recommended new words = min(new, 20) |
| Srs.DueCount | app/gamification/srs.py:188-195 | the day's count is the number of unmastered rows due on that day |
| Srs.NoEntryIsAdded | app/gamification/srs.py:213-224 | the call fails for every entry, so nothing is counted |
| Srs.DaysFromMembers | app/gamification/srs.py:184-186 | the forecast days are today, today+1, …, today+days−1 |
| Srs.DaysFromSize | app/gamification/srs.py:184 | there are max(days, 0) of them |
| Srs.ForecastCoversDays | app/gamification/srs.py:181-199 | a map keyed by those days has max(days, 0) entries |
| Srs.SpacedRepetitionSystem.constructor | app/gamification/srs.py:20-22 | the system reads the given database |
| Srs.SpacedRepetitionSystem.GetReviewQueue | app/gamification/srs.py:24-42 | a permutation of the due reviews at the given limit (100 by default) |
| Srs.SpacedRepetitionSystem.GetNewWords | app/gamification/srs.py:44-63 | a prefix, in the by-level order, of the level's never-seen words, of length min(limit, available) for a non-negative limit (20 by default) |
| Srs.SpacedRepetitionSystem.ReviewWord | app/gamification/srs.py:65-92 | a failing update propagates and changes nothing; otherwise it returns the reviewed row's word, date, interval, mastered flag and accuracy |
| Srs.SpacedRepetitionSystem.GetStudyStats | app/gamification/srs.py:101-158 | due and new counts over the table, with the recommendations capped at 100 and 20 |
| Srs.SpacedRepetitionSystem.GetReviewForecast | app/gamification/srs.py:174-199 | exactly max(days, 0) entries keyed from today, each the number of unmastered rows due that day |
| Srs.SpacedRepetitionSystem.BulkAddWords | app/gamification/srs.py:201-226 | the count is the number of entries whose call succeeds, which is 0 |
| Vocabulary.Tally | app/learning/vocabulary.py:184-201 | a review adds one completed review and its xp; `again` iff the incorrect count grows, otherwise the correct count grows |
| Vocabulary.TallyKeepsBalanced | app/learning/vocabulary.py:184-201 | correct + incorrect keeps equal to reviews completed, never negative |
| Vocabulary.Accuracy | app/learning/vocabulary.py:89-91 | the session's correct share of its answers · 100, 0 with no answers; stated by Vocabulary.AccuracyIsPercentage |
| Vocabulary.AccuracyIsPercentage | app/learning/vocabulary.py:89-91 | within [0, 100]; 100 iff no incorrect answer; 0 iff no correct one |
| Vocabulary.StudyRecommendation | app/learning/vocabulary.py:132-144 | due > 20, else due > 0, else new > 0, else caught up, each branch iff its condition |
| Vocabulary.RecommendationIgnoresNewWhileDue | app/learning/vocabulary.py:137-140 | with reviews due the number of new words does not matter |
| Vocabulary.LearnerAwards | app/learning/vocabulary.py:184-195 | the learner's review awards are 2 xp for `again` and 5 otherwise, and a new word earns 10 |
| Vocabulary.CardFor | app/learning/vocabulary.py:282-299 | a card keeps the word's id; de_to_en shows German in front, en_to_de English |
| Vocabulary.CardsTurnOver | app/learning/vocabulary.py:282-299 | the two directions are the same card turned over |
| Vocabulary.BlankHidesWord | app/learning/vocabulary.py:351 | once replaced by the blank, a word sharing no character with it is gone from the sentence |
| Vocabulary.VocabularyLearner.constructor | app/learning/vocabulary.py:23-37 | no active session and every counter 0 |
| Vocabulary.VocabularyLearner.StartSession | app/learning/vocabulary.py:43-77 | a new session row, its id current; all five counters 0 with the level; the recommendation follows the study stats |
| Vocabulary.VocabularyLearner.ReviewWord | app/learning/vocabulary.py:167-214 | fails iff the id or grade is unknown, then changes nothing; otherwise the word is reviewed, 2 xp for `again` and 5 otherwise are added and the level recomputed, the achievements refreshed, the counters tallied, and leveled_up and the new achievements are award_xp's |
| Vocabulary.VocabularyLearner.LearnNewWord | app/learning/vocabulary.py:234-263 | fails iff the id is unknown, then changes nothing; otherwise grades the word good, adds 10 xp and recomputes the level, refreshes the achievements, counts one more word learned, and reports award_xp's leveled_up and new achievements |
| Vocabulary.VocabularyLearner.EndSession | app/learning/vocabulary.py:79-130 | with no session, an error and no change; with an unknown session id, the NoSuchSession error and no table changed; otherwise the session row is closed with the xp, words, reviews as exercises and incorrect answers as mistakes, the seconds and today's date are stored (the streak unchanged) and today's activity is upserted; on an empty vocabulary the achievement check fails and the id stays; otherwise the achievements are refreshed, the id is cleared and the summary reports the counters, the accuracy, the level info of the new stats, the new achievements, Otto's summary of (duration 0, the xp, the words, the accuracy in tenths, no level-up, the stored level) and the streak columns |
| Vocabulary.AccuracyTenthsRounds | app/learning/vocabulary.py:113 | the accuracy handed to Otto, `round(accuracy, 1)` in tenths, is within half a tenth of the exact accuracy |
| Vocabulary.EndSummaryNeverLevelsUp | app/learning/vocabulary.py:108-123 | since end_session passes `leveled_up` False, Otto's summary of a session never fails and never shows the level-up header |
| Vocabulary.EndSummaryZeroMinutes | app/learning/vocabulary.py:108-123 | since end_session passes a duration of 0, the line after the heading always reports 0 minutes studied |
| Vocabulary.VocabularyLearner.FlashcardMode | app/learning/vocabulary.py:269-303 | one card per word, in order, with the same id, turned by its coin |
| Vocabulary.VocabularyLearner.Distractors | app/learning/vocabulary.py:317-318 | exactly the other words of the same level |
| Vocabulary.VocabularyLearner.MultipleChoiceMode | app/learning/vocabulary.py:305-333 | includes the correct translation; min(n, 1 + distractors) choices for n ≥ 1, more for n ≤ 0; every other choice is a distractor's translation |
| Vocabulary.VocabularyLearner.FillInBlankMode | app/learning/vocabulary.py:335-358 | None iff there is no example or the word is not in it; otherwise the answer is the word and every occurrence is blanked |
| Vocabulary.ChoicesFromPool | app/learning/vocabulary.py:318-324 | the choices are the translation plus the kept distractors' translations |
| Conversation.GetScenariosByLevel | app/buddy/conversation.py:108-110 | the level's list, [] for an unknown level |
| Conversation.CatalogueLevels | app/buddy/conversation.py:17-96 | the catalogue has levels A1 to B2, each with a scenario |
| Conversation.FindScenario | app/buddy/conversation.py:124-125 | `next(...)` over the level's scenarios; stated by Conversation.FindScenarioFirst |
| Conversation.FindScenarioFirst | app/buddy/conversation.py:125 | the search finds nothing iff no scenario has the id, and otherwise finds the first one that does |
| Conversation.HistoryLines | app/buddy/conversation.py:217-220 | one `Otto:` or `Student:` line per message, oldest first; stated by Conversation.HistoryLinesAppend and Conversation.EveryMessageListed |
| Conversation.PromptHeader | app/buddy/conversation.py:201-215 | the prompt's fixed text around the scenario's role, setting, level A1 and joined goals |
| Conversation.HistoryLinesAppend | app/buddy/conversation.py:218-220 | the lines of a split history are the lines of the parts |
| Conversation.EveryMessageListed | app/buddy/conversation.py:218-220 | every message's line appears in the history's lines |
| Conversation.PromptListsHistory | app/buddy/conversation.py:201-223 | the prompt contains every history message's line |
| Conversation.ConversationManager.constructor | app/buddy/conversation.py:102-106 | no scenario, empty history, no corrections |
| Conversation.ConversationManager.StartScenario | app/buddy/conversation.py:116-147 | an unknown id fails before any change; otherwise the found scenario is current, the history is only Otto's opening line, and there are no corrections |
| Conversation.ConversationManager.AddUserMessage | app/buddy/conversation.py:149-156 | appends one user message and nothing else changes |
| Conversation.ConversationManager.AddOttoMessage | app/buddy/conversation.py:158-165 | appends one Otto message and nothing else changes |
| Conversation.ConversationManager.AddCorrection | app/buddy/conversation.py:167-175 | appends one correction and nothing else changes |
| Conversation.ConversationManager.BuildConversationPrompt | app/buddy/conversation.py:185-225 | "" without a scenario; otherwise the header, every message labelled in order, the new student line and the footer; the history is left alone |
| Conversation.ConversationManager.EndConversation | app/buddy/conversation.py:227-255 | None without a scenario; otherwise total = history length, user count and corrections count, fewer user messages than messages, then all three are reset |
| Conversation.OpeningIsNotUser | app/buddy/conversation.py:237-238 | a history opening with Otto's line has fewer user messages than messages |
| Exporter.Tier | app/analytics/exporter.py:200-231 | the first rung of a descending ladder the value reaches, as each if/elif chain checks; stated by Exporter.TierIsLargestReached |
| Exporter.TierIsLargestReached | app/analytics/exporter.py:200-231 | on a descending ladder the tier is the largest threshold reached, and none iff none is reached |
| Exporter.TierOfThree | app/analytics/exporter.py:202-225 | a three-rung ladder is checked from the top rung down |
| Exporter.TierOfTwo | app/analytics/exporter.py:228-231 | a two-rung ladder is checked from the top rung down |
| Exporter.LaddersDescend | app/analytics/exporter.py:200-231 | the words, streak, hours and level ladders are descending |
| Exporter.Entry | app/analytics/exporter.py:200-231 | a ladder contributes at most one milestone |
| Exporter.MilestoneList | app/analytics/exporter.py:193-233 | the words, streak, hours and level milestones in that order; stated by Exporter.MilestoneListShape |
| Exporter.MilestoneListShape | app/analytics/exporter.py:193-233 | at most four milestones, one per kind, in the order words, streak, hours, level |
| Exporter.StreakMilestoneExample | app/analytics/exporter.py:210-225 | a longest streak of 45 gives the 30-day milestone and 6 gives none; 720000 s is the 200-hour tier |
| Exporter.WordsEntry | app/analytics/exporter.py:201-207 | 2000, else 500, else 100 words |
| Exporter.StreakEntry | app/analytics/exporter.py:210-216 | 100, else 30, else 7 days of longest streak |
| Exporter.HoursEntry | app/analytics/exporter.py:219-225 | 200, else 50, else 10 hours studied |
| Exporter.LevelEntry | app/analytics/exporter.py:228-231 | A2 from level 25, else A1 from level 10 |
| Exporter.GetMilestones | app/analytics/exporter.py:193-233 | the ladder branches in order, at most four entries |
| Exporter.ExportMilestones | app/analytics/exporter.py:193-233 | fails on an empty vocabulary; otherwise the milestones of the word count, longest streak, study time and stored level |
| Exporter.ExportAchievements | app/analytics/exporter.py:106-119 | one record per unlocked achievement in get_achievements order, with its title, description and category, and the day of its unlock time when there is one |
| Exporter.SortedDatesOrdered | app/analytics/exporter.py:136-137 | the sorted dates are the set's own, each once, ascending |
| Exporter.WindowDates | app/analytics/exporter.py:123-138 | exactly the recorded dates from the cutoff on, ascending |
| Exporter.DayRecords | app/analytics/exporter.py:142-152 | one record per date, in order |
| Exporter.ExportDailyActivity | app/analytics/exporter.py:121-152 | the records of the dates from the cutoff on; stated by Exporter.DailyActivityInOrder and Exporter.DailyActivityComplete |
| Exporter.DailyActivityInOrder | app/analytics/exporter.py:121-152 | the window's days, oldest first, each once, minutes the seconds / 60 rounded to the nearest |
| Exporter.DailyActivityComplete | app/analytics/exporter.py:121-152 | every recorded day in the window is exported |
| Personality.TimeGreeting | app/buddy/personality.py:45-52 | Morgen iff 5–11, Tag iff 12–17, Abend iff 18–21, Hallo iff any other hour |
| Personality.StreakTierOf | app/buddy/personality.py:57-74 | tiers ≥ 100, 30–99, 7–29, 3–6 and below 3, each iff its band |
| Personality.Greeting | app/buddy/personality.py:44-76 | starts with the time greeting; below 3 days one of the encouraging messages follows, otherwise the streak's number is written |
| Personality.StreakLine | app/buddy/personality.py:57-74 | the celebration of the streak's tier, or a picked encouraging message below 3 days; stated by Personality.StreakLineNamesStreak |
| Personality.StreakLineNamesStreak | app/buddy/personality.py:57-64 | every celebration writes the streak's length |
| Personality.MotivationByStreak | app/buddy/personality.py:286-307 | the dedicated messages for 0, 1, 2, 6, 7, 29, 30, 99, 100 win over the multiple-of-ten one; every other streak gets the generic one |
| Personality.SuggestDifficulty | app/buddy/personality.py:324-329 | a suggestion iff accuracy < 50 or (> 95 and not B2): easier below 50, otherwise harder; never harder at B2 |
| Personality.CommentFor | app/buddy/personality.py:209-216 | tiers ≥ 90, 75–90, 60–75 and below, each iff its band |
| Personality.SummaryReportsSession | app/buddy/personality.py:186-227 | fails only on a level-up without a level; otherwise the heading, time, xp and comment paragraphs appear |
| Personality.CountInSummary | app/buddy/personality.py:194-204 | the level-up header appears iff leveled_up, the words line iff words > 0, the accuracy line iff accuracy > 0 |
| Personality.SummaryEnds | app/buddy/personality.py:186-225 | the time is in whole minutes, and the summary ends with the comment for the accuracy and then a closer |
| Personality.SessionSummary | app/buddy/personality.py:176-227 | the text fails iff its paragraphs do and starts with the heading |
| LlmManager.MistralNameIsMistral | app/models/llm_manager.py:88 | the mistral model's name names mistral |
| LlmManager.LlamaNameIsNotMistral | app/models/llm_manager.py:88-91 | the llama model's name does not |
| LlmManager.LowerLlamaName | app/models/llm_manager.py:88 | the lowercased llama name |
| LlmManager.GenerateRequest | app/models/llm_manager.py:83-108 | mistral model by default; given settings are used; unset ones come from mistral iff the lowercased name contains "mistral", else from llama |
| LlmManager.DefaultRequestIsMistral | app/models/llm_manager.py:83-97 | with nothing given, mistral with 0.7 and 1024 |
| LlmManager.GenerateReply | app/models/llm_manager.py:110-127 | a reply iff the server answered: the answer with whitespace cut from the two ends only, and no whitespace left at either end |
| LlmManager.ConversationRequest | app/models/llm_manager.py:129-143 | mistral or llama, each with its own temperature and token limit |
| LlmManager.CorrectionPrompt | app/models/llm_manager.py:157-167 | the prompt quotes the learner's text |
| LlmManager.CorrectionRequest | app/models/llm_manager.py:157-173 | llama at temperature 0.3 with llama's token limit, quoting the text |
| LlmManager.ParseFields | app/models/llm_manager.py:180-185 | the loop builds the dictionary of the reply's lines |
| LlmManager.Fields | app/models/llm_manager.py:180-185 | the dictionary the parse loop builds from the reply's lines; stated by the lemmas below |
| LlmManager.FieldsFromLines | app/models/llm_manager.py:182-185 | every key comes from a line holding ':' |
| LlmManager.LineExtendsFields | app/models/llm_manager.py:182-185 | a line without ':' adds nothing; one with ':' sets its stripped key to its stripped value |
| LlmManager.LastLineWins | app/models/llm_manager.py:182-185 | a key takes the value of the last line naming it |
| LlmManager.CorrectionOf | app/models/llm_manager.py:187-191 | is_correct iff CORRECT lowercased is "yes", true when absent; corrected text defaults to the user's text and explanation to "" |
| LlmManager.GenerateCorrection | app/models/llm_manager.py:145-191 | None iff the reply is missing or empty; otherwise the correction of the parsed lines |
| LlmManager.VerdictDefaultsToCorrect | app/models/llm_manager.py:188 | a reply naming no CORRECT key counts as correct |
| LlmManager.MockGenerate | app/models/llm_manager.py:210-217 | the name reply iff "Wie heißt" appears; the drink reply iff not and "möchten" or "trinken" appears; otherwise the default |
| LlmManager.NameQuestionComesFirst | app/models/llm_manager.py:212-215 | a prompt with both questions gets the name reply |
| LlmManager.MockCorrection | app/models/llm_manager.py:222-227 | every text is accepted as it stands |

## Left out

- SQLite plumbing is not modelled: connections, commits and `executescript`. Each method is one atomic step.
  - The nested connection inside `end_session` is a locking concern; only its ordering effect on `last_activity_date` is kept.
  - The schema file is not part of this model. A new vocabulary row's column defaults are a constructor parameter (`ColumnDefaults`). The model assumes these other schema facts, which the Python code does not show:
    - `NewAchievementRow` fixes a new achievement row's progress at 0, its unlocked flag at false and its unlock time at None. The unlock pass reads only locked rows, so it depends on these values.
    - `DefaultUserStats` fills the columns `_create_default_user_stats` does not name: 0 xp, level 1, no streak, no longest streak, no last activity date, 0 seconds studied.
    - `word` is UNIQUE in the vocabulary table and `name` is UNIQUE in the achievements table. `DbManager.DatabaseManager.Valid` and `InsertAbsent` rely on this; without the constraints `INSERT OR IGNORE` would ignore nothing.
- The SQL reads the core does not use are left out, since they only report: `get_session_stats`, `log_mistake`, `get_mistake_patterns`, `get_difficult_words` and the learner's `get_vocabulary_stats`.
- `get_review_session` is left out. It only shuffles `get_review_queue` once more.
- `get_level_rewards_summary` is left out. It is a dictionary of texts.
- `Srs.SpacedRepetitionSystem.GetStudyStats`: the average accuracy of `get_study_stats` is left out, because it is a float aggregate. The "reviews today" and "mastered" counts are computed but have no contract.
- Floating point is exact here:
  - ease is in hundredths;
  - percentages are rationals, and `round(...)` is not applied except where the text is printed in tenths;
  - IEEE rounding edge cases are not captured.
- `Srs.SpacedRepetitionSystem.GetNewWords`: for a negative limit the contract states only the prefix property, not the length of Python's from-the-end slice.
- `DbManager.DatabaseManager.GetVocabularyStats`: the `round(accuracy, 2)` is not applied; the accuracy is the exact ratio.
- Randomness is a parameter: caller-supplied picks and coins stand for `random.shuffle` and `random.choice`. The greeting's encouraging messages and the summary's closers keep their text and are chosen by a pick; the texts of `get_encouragement`, `format_correction`, `celebrate_achievement`, `get_daily_reminder` and `get_random_otto_quote` are left out.
- Clocks are parameters: `datetime.now()` and `date.today()` are integers.
  - ISO date strings are day numbers.
  - A session's duration is the difference of two second counts.
- Network I/O is left out: the Ollama HTTP call, `check_ollama_installed`, `list_available_models` and their error prints. `generate` is split into pure halves, the request it builds and the reply it then returns.
- The `try`/`except` around the correction parser is left out, because no string reply can raise inside it.
- `MockLLM`'s unused `responses` dictionary and its `check_ollama_installed` are left out.
- The icon columns of achievements and milestones are left out. The conversation and correction prompts, the mock replies and the buddy's greetings and summaries keep their text. A milestone is a datatype value rather than its caption, and the question text of a multiple-choice item is left out.
- The Streamlit pages, app/main.py, the scripts and `save_to_file` are not part of this model.

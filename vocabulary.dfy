/** The vocabulary learner of app/learning/vocabulary.py: the per-session
    counters kept on the learner object, the study recommendation and the
    three practice modes (flashcards, multiple choice, fill in the blank). */
module Vocabulary {
  import opened Wrappers
  import opened Numeric
  import opened Seqs
  import opened Strings
  import opened Config
  import opened DbManager
  import opened XpSystem
  import opened Srs
  import Personality

  /** `session_stats`; the `cefr_level` key only exists after start_session. */
  datatype SessionStats = SessionStats(
    wordsLearned: int, reviewsCompleted: int, correctCount: int, incorrectCount: int,
    xpEarned: int, cefrLevel: Option<string>)

  const InitialStats := SessionStats(0, 0, 0, 0, 0, None)

  /** The counters are non-negative and every completed review was counted
      as either correct or incorrect. */
  predicate Balanced(s: SessionStats) {
    && s.wordsLearned >= 0 && s.correctCount >= 0 && s.incorrectCount >= 0 && s.xpEarned >= 0
    && s.reviewsCompleted == s.correctCount + s.incorrectCount
  }

  /** The effect of one review on the counters. */
  function Tally(s: SessionStats, again: bool, xp: int): (r: SessionStats)
    ensures r.reviewsCompleted == s.reviewsCompleted + 1 && r.xpEarned == s.xpEarned + xp
    ensures r.correctCount + r.incorrectCount == s.correctCount + s.incorrectCount + 1
    ensures again <==> r.incorrectCount == s.incorrectCount + 1
    ensures r.wordsLearned == s.wordsLearned && r.cefrLevel == s.cefrLevel
  {
    if again then s.(incorrectCount := s.incorrectCount + 1, reviewsCompleted := s.reviewsCompleted + 1,
                     xpEarned := s.xpEarned + xp)
    else s.(correctCount := s.correctCount + 1, reviewsCompleted := s.reviewsCompleted + 1,
            xpEarned := s.xpEarned + xp)
  }

  /** A review with non-negative xp keeps the counters balanced. */
  lemma TallyKeepsBalanced(s: SessionStats, again: bool, xp: int)
    requires Balanced(s) && xp >= 0
    ensures Balanced(Tally(s, again, xp))
  {
  }

  /** The session accuracy reported by end_session (before rounding). */
  function Accuracy(s: SessionStats): real {
    var total := s.correctCount + s.incorrectCount;
    if total > 0 then s.correctCount as real / total as real * 100.0 else 0.0
  }

  /** On balanced counters the accuracy is a percentage, 100 exactly when
      no review was incorrect and 0 when none was correct. */
  lemma AccuracyIsPercentage(s: SessionStats)
    requires Balanced(s)
    ensures 0.0 <= Accuracy(s) <= 100.0
    ensures s.reviewsCompleted > 0 ==> (Accuracy(s) == 100.0 <==> s.incorrectCount == 0)
    ensures Accuracy(s) == 0.0 <==> s.correctCount == 0
  {
    var total := s.correctCount + s.incorrectCount;
    if total > 0 {
      var q := s.correctCount as real / total as real;
      assert q * total as real == s.correctCount as real;
    }
  }

  /** Which of the four recommendation texts _get_study_recommendation picks. */
  datatype Recommendation = ManyDue(due: int) | SomeDue(due: int) | NewWaiting(count: int) | CaughtUp

  /** Due reviews come first (more than 20 of them get their own message),
      then new words; only with neither is the learner caught up. */
  function StudyRecommendation(s: StudyStats): (r: Recommendation)
    ensures r == ManyDue(s.dueReviews) <==> s.dueReviews > 20
    ensures r == SomeDue(s.dueReviews) <==> 0 < s.dueReviews <= 20
    ensures r == NewWaiting(s.newWordsAvailable) <==> s.dueReviews == 0 && s.newWordsAvailable > 0
    ensures r == CaughtUp <==> s.dueReviews == 0 && s.newWordsAvailable == 0
  {
    if s.dueReviews > 20 then ManyDue(s.dueReviews)
    else if s.dueReviews > 0 then SomeDue(s.dueReviews)
    else if s.newWordsAvailable > 0 then NewWaiting(s.newWordsAvailable)
    else CaughtUp
  }

  /** The number of new words matters only once nothing is due. */
  lemma RecommendationIgnoresNewWhileDue(s: StudyStats, t: StudyStats)
    requires s.dueReviews == t.dueReviews > 0
    ensures StudyRecommendation(s) == StudyRecommendation(t)
  {
  }

  /** The learner's award amounts, as award_xp computes them from XP_CONFIG. */
  lemma LearnerAwards()
    ensures AwardAmount("vocabulary_review_incorrect", None) == VocabularyIncorrectXp
    ensures AwardAmount("vocabulary_review_correct", None) == VocabularyCorrectXp
    ensures AwardAmount("vocabulary_new_word", None) == VocabularyNewWordXp
  {
  }

  datatype SessionStart = SessionStart(sessionId: int, srsStats: StudyStats, recommendation: Recommendation)

  /** What review_word reports (without Otto's feedback, a random pick). */
  datatype WordReview = WordReview(
    word: string, difficulty: string, nextReview: int, intervalDays: int, mastered: bool,
    xpGained: int, totalXp: int, leveledUp: bool, newAchievements: seq<AchievementRow>)

  datatype NewWordAward = NewWordAward(
    xpGained: int, totalXp: int, leveledUp: bool, newAchievements: seq<AchievementRow>)

  datatype SessionSummary = SessionSummary(
    sessionStats: SessionStats, accuracy: real, levelInfo: Option<LevelInfo>,
    newAchievements: seq<AchievementRow>, ottoSummary: Result<string, string>, streakInfo: StreakInfo)

  /** `round(accuracy, 1)` in tenths of a percent: correct / total * 1000 to
      the nearest whole, ties to even, and 0 with no answers. */
  function AccuracyTenths(s: SessionStats): int {
    var total := s.correctCount + s.incorrectCount;
    if total > 0 then RoundHalfEven(s.correctCount * 1000, total) else 0
  }

  /** The tenths are the accuracy rounded to one decimal: within half a
      tenth of the exact percentage. */
  lemma AccuracyTenthsRounds(s: SessionStats)
    requires Balanced(s)
    ensures -0.5 <= AccuracyTenths(s) as real - Accuracy(s) * 10.0 <= 0.5
  {
    var total := s.correctCount + s.incorrectCount;
    if total > 0 {
      var q := s.correctCount as real / total as real;
      assert q * total as real == s.correctCount as real;
      assert Accuracy(s) * 10.0 == q * 1000.0;
      WithinHalf(q * 1000.0, AccuracyTenths(s), s.correctCount * 1000, total);
    }
  }

  /** The session data end_session hands to Otto: a duration of 0, the
      counters, the accuracy (rounded, in tenths), no level-up and the
      stored level. */
  function SummaryInput(s: SessionStats, tenths: int, level: int): Personality.SessionData {
    Personality.SessionData(Some(0), Some(s.xpEarned), Some(s.wordsLearned), Some(tenths),
                            Some(false), Some(level))
  }

  /** Because end_session always passes no level-up, Otto's summary of a
      vocabulary session never fails and never shows the level-up header. */
  lemma EndSummaryNeverLevelsUp(s: SessionStats, tenths: int, level: int, pick: nat)
    ensures Personality.SessionSummary(SummaryInput(s, tenths, level), pick).Success?
    ensures Personality.SummaryParts(SummaryInput(s, tenths, level), pick).Success?
    ensures Count(Personality.SummaryParts(SummaryInput(s, tenths, level), pick).value, Personality.IsLevelUp) == 0
  {
    var d := SummaryInput(s, tenths, level);
    assert d.leveledUp == Some(false);
    Personality.SummaryReportsSession(d, pick);
  }

  /** Because end_session always passes a duration of 0 and no level-up,
      the line right after the heading reports 0 minutes studied. */
  lemma EndSummaryZeroMinutes(s: SessionStats, tenths: int, level: int, pick: nat)
    ensures Personality.SummaryParts(SummaryInput(s, tenths, level), pick).Success?
    ensures |Personality.SummaryParts(SummaryInput(s, tenths, level), pick).value| > 1
    ensures Personality.SummaryParts(SummaryInput(s, tenths, level), pick).value[1] == Personality.TimeStudied(0)
  {
    var d := SummaryInput(s, tenths, level);
    var parts := Personality.SummaryParts(d, pick).value;
    assert Personality.Optional(false, Personality.LevelUp(level)) == [];
    assert parts[1] == Personality.TimeStudied(0);
  }

  /** end_session's returned error dict, or an exception raised by the
      database underneath. */
  datatype LearnerError = NoActiveSession | Raised(error: DbError)

  // ---------------------------------------------------------------- practice modes

  datatype Direction = DeToEn | EnToDe

  /** The str() of a value that may be None, as an f-string renders it. */
  function Show(o: Option<string>): string {
    if o.Some? then o.value else "None"
  }

  datatype Flashcard = Flashcard(
    id: int, front: string, back: string, direction: Direction, hint: Option<string>,
    example: Option<string>)

  /** One card: German on the front for de_to_en, English for en_to_de. The
      row dicts carry every column, so `get` returns a stored None as is and
      the en_to_de hint prints it as "None". */
  function CardFor(w: VocabItem, d: Direction): (c: Flashcard)
    ensures c.id == w.id && c.direction == d
    ensures d == DeToEn ==> c.front == w.word && c.back == w.translation
    ensures d == EnToDe ==> c.front == w.translation && c.back == w.word
  {
    match d
    case DeToEn => Flashcard(w.id, w.word, w.translation, DeToEn, w.partOfSpeech, w.exampleSentence)
    case EnToDe => Flashcard(w.id, w.translation, w.word, EnToDe,
                             Some(Show(w.gender) + " (" + Show(w.partOfSpeech) + ")"), w.exampleTranslation)
  }

  /** The two directions of a word are the same card turned over. */
  lemma CardsTurnOver(w: VocabItem)
    ensures CardFor(w, DeToEn).front == CardFor(w, EnToDe).back
    ensures CardFor(w, DeToEn).back == CardFor(w, EnToDe).front
  {
  }

  /** The k-th `random.choice([True, False])`, drawn from `coins`. */
  function CoinAt(coins: seq<bool>, k: int): Direction {
    if 0 <= k < |coins| && !coins[k] then EnToDe else DeToEn
  }

  const BlankMarker := "______"

  datatype BlankQuestion = BlankQuestion(
    question: string, answer: string, translation: Option<string>, vocabId: int)

  /** The multiple-choice question (its prompt text aside). */
  datatype ChoiceQuestion = ChoiceQuestion(
    word: string, choices: seq<string>, correctAnswer: string, hint: Option<string>, vocabId: int)

  function Translation(w: VocabItem): string { w.translation }

  /** A word that shares no character with the blank is gone from the
      question. */
  lemma BlankHidesWord(example: string, word: string)
    ensures word != [] && Foreign(BlankMarker, word) ==> !Contains(ReplaceAll(example, word, BlankMarker), word)
  {
    if word != [] && Foreign(BlankMarker, word) {
      ReplaceLeavesNoOccurrence(example, word, BlankMarker);
    }
  }

  class VocabularyLearner {
    const db: DatabaseManager
    const srs: SpacedRepetitionSystem
    var currentSessionId: Option<int>
    var stats: SessionStats

    /** The learner and its SRS share one database. */
    ghost predicate Valid()
      reads this, db
    {
      srs.db == db && db.Valid() && Balanced(stats)
    }

    constructor (db: DatabaseManager)
      requires db.Valid()
      ensures Valid() && this.db == db
      ensures currentSessionId == None && stats == InitialStats
    {
      this.db := db;
      srs := new SpacedRepetitionSystem(db);
      currentSessionId := None;
      stats := InitialStats;
    }

    /** `if not self.current_session_id`: no session, or the id 0. */
    predicate Active()
      reads this
    {
      currentSessionId.Some? && currentSessionId.value != 0
    }

    /** start_session: opens a vocabulary session and resets the counters. */
    method StartSession(cefrLevel: string, now: int, today: int) returns (info: SessionStart)
      requires Valid()
      modifies this`currentSessionId, this`stats, db`sessions, db`nextSessionId
      ensures Valid()
      ensures info.sessionId == old(db.nextSessionId) && currentSessionId == Some(info.sessionId)
      ensures db.sessions == old(db.sessions)[info.sessionId := SessionRow(now, "vocabulary", Some(cefrLevel), None)]
      ensures stats == SessionStats(0, 0, 0, 0, 0, Some(cefrLevel))
      ensures info.srsStats == srs.GetStudyStats(now, today)
      ensures info.recommendation == StudyRecommendation(info.srsStats)
    {
      var id := db.CreateSession("vocabulary", Some(cefrLevel), now);
      currentSessionId := Some(id);
      stats := SessionStats(0, 0, 0, 0, 0, Some(cefrLevel));
      var srsStats := srs.GetStudyStats(now, today);
      info := SessionStart(id, srsStats, StudyRecommendation(srsStats));
    }

    /** review_word: the SRS update (whose failure propagates before any
        counter moves), then the xp award for a correct or an incorrect
        answer and the counters. */
    method ReviewWord(vocabId: int, userAnswer: string, difficulty: string, now: int)
      returns (r: Result<WordReview, DbError>)
      requires Valid()
      modifies this`stats, db`vocabulary, db`userStats, db`achievements
      ensures Valid()
      ensures r.Failure? <==> vocabId !in old(db.vocabulary) || ParseGrade(difficulty).None?
      ensures r.Failure? ==> stats == old(stats) && db.vocabulary == old(db.vocabulary)
                             && db.userStats == old(db.userStats) && db.achievements == old(db.achievements)
      ensures r.Success? ==>
                var amount := if difficulty == "again" then VocabularyIncorrectXp else VocabularyCorrectXp;
                var w := Review(old(db.vocabulary)[vocabId], ParseGrade(difficulty).value, now);
                && db.vocabulary == old(db.vocabulary)[vocabId := w]
                && stats == Tally(old(stats), difficulty == "again", amount)
                && db.userStats == WithXp(old(db.userStats), amount)
                && db.achievements == RefreshAll(old(db.achievements), db.Progress(), now)
                && r.value.xpGained == amount && r.value.totalXp == db.userStats.totalXp
                && r.value.word == w.word && r.value.nextReview == w.nextReview
                && r.value.intervalDays == w.intervalDays && r.value.mastered == w.mastered
                && r.value.leveledUp == (db.userStats.currentLevel > old(db.userStats.currentLevel))
                && r.value.newAchievements == NewlyUnlocked(old(db.achievements), db.Progress())
    {
      var result := srs.ReviewWord(vocabId, difficulty, now);
      if result.Failure? {
        return Failure(result.error);
      }
      db.RowsComplete();
      var review := AwardReview(result.value, now);
      r := Success(review);
    }

    /** The second half of review_word, once the SRS update went through:
        the xp for a correct or an incorrect answer, the counters, and the
        reported fields. */
    method AwardReview(review: ReviewResult, now: int) returns (r: WordReview)
      requires Valid() && db.Rows() != []
      modifies this`stats, db`userStats, db`achievements
      ensures Valid()
      ensures var amount := if review.difficulty == "again" then VocabularyIncorrectXp else VocabularyCorrectXp;
              && db.userStats == WithXp(old(db.userStats), amount)
              && db.achievements == RefreshAll(old(db.achievements), db.Progress(), now)
              && stats == Tally(old(stats), review.difficulty == "again", amount)
              && r == WordReview(review.word, review.difficulty, review.nextReview, review.intervalDays,
                                 review.mastered, amount, db.userStats.totalXp,
                                 db.userStats.currentLevel > old(db.userStats.currentLevel),
                                 NewlyUnlocked(old(db.achievements), db.Progress()))
    {
      LearnerAwards();
      var again := review.difficulty == "again";
      var action := if again then "vocabulary_review_incorrect" else "vocabulary_review_correct";
      var reason := if again then "Vocabulary review (trying)" else "Vocabulary review (correct)";
      var award := AwardXp(db, action, None, reason, now);
      var gained := award.value.award;
      stats := Tally(stats, again, gained.xpGained);
      r := WordReview(review.word, review.difficulty, review.nextReview, review.intervalDays,
                      review.mastered, gained.xpGained, gained.totalXp, gained.leveledUp,
                      award.value.newAchievements);
    }

    /** learn_new_word: grades the word `good` (a failure propagates), awards
        the new-word xp and counts the word. */
    method LearnNewWord(vocabId: int, now: int) returns (r: Result<NewWordAward, DbError>)
      requires Valid()
      modifies this`stats, db`vocabulary, db`userStats, db`achievements
      ensures Valid()
      ensures r.Failure? <==> vocabId !in old(db.vocabulary)
      ensures r.Failure? ==> stats == old(stats) && db.vocabulary == old(db.vocabulary)
                             && db.userStats == old(db.userStats) && db.achievements == old(db.achievements)
      ensures r.Success? ==>
                && db.vocabulary == old(db.vocabulary)[vocabId := Review(old(db.vocabulary)[vocabId], Good, now)]
                && stats == old(stats).(wordsLearned := old(stats.wordsLearned) + 1,
                                        xpEarned := old(stats.xpEarned) + VocabularyNewWordXp)
                && db.userStats == WithXp(old(db.userStats), VocabularyNewWordXp)
                && db.achievements == RefreshAll(old(db.achievements), db.Progress(), now)
                && r.value.xpGained == VocabularyNewWordXp && r.value.totalXp == db.userStats.totalXp
                && r.value.leveledUp == (db.userStats.currentLevel > old(db.userStats.currentLevel))
                && r.value.newAchievements == NewlyUnlocked(old(db.achievements), db.Progress())
    {
      var result := srs.ReviewWord(vocabId, "good", now);
      if result.Failure? {
        return Failure(result.error);
      }
      db.RowsComplete();
      LearnerAwards();
      var award := AwardXp(db, "vocabulary_new_word", None, "Learned new word", now);
      var gained := award.value.award;
      stats := stats.(wordsLearned := stats.wordsLearned + 1, xpEarned := stats.xpEarned + gained.xpGained);
      r := Success(NewWordAward(gained.xpGained, gained.totalXp, gained.leveledUp, award.value.newAchievements));
    }

    /** end_session: with no active session an error comes back and nothing
        changes. Otherwise the database session is closed (it commits on
        its own), the level info is read and the achievements are checked;
        that check raises on an empty vocabulary, leaving the session id
        set. On success the id is cleared. */
    method EndSession(now: int, today: int, pick: nat) returns (r: Result<SessionSummary, LearnerError>)
      requires Valid()
      modifies this`currentSessionId, db`sessions, db`userStats, db`dailyActivity, db`achievements
      ensures Valid()
      ensures !old(Active()) ==>
                r == Failure(NoActiveSession) && currentSessionId == old(currentSessionId)
                && db.sessions == old(db.sessions) && db.userStats == old(db.userStats)
                && db.dailyActivity == old(db.dailyActivity) && db.achievements == old(db.achievements)
      ensures old(Active()) && old(currentSessionId.value) !in old(db.sessions) ==>
                r == Failure(Raised(NoSuchSession)) && currentSessionId == old(currentSessionId)
                && db.sessions == old(db.sessions) && db.userStats == old(db.userStats)
                && db.dailyActivity == old(db.dailyActivity) && db.achievements == old(db.achievements)
      ensures old(Active()) && old(currentSessionId.value) in old(db.sessions) ==>
                var id := old(currentSessionId.value);
                var duration := now - old(db.sessions)[id].startTime;
                && db.sessions == old(db.sessions)[id := old(db.sessions)[id].(ended := Some(SessionEnd(
                     now, duration, stats.xpEarned, stats.wordsLearned, stats.reviewsCompleted,
                     stats.incorrectCount, "")))]
                && db.userStats == old(db.userStats).(totalSecondsStudied := old(db.userStats.totalSecondsStudied) + duration,
                                                      lastActivityDate := Some(today))
                && db.dailyActivity == UpsertDaily(old(db.dailyActivity), today,
                     SessionTotals(duration, stats.xpEarned, stats.wordsLearned, stats.reviewsCompleted))
      ensures old(Active()) && old(currentSessionId.value) in old(db.sessions) ==>
                && (db.Rows() == [] ==> r == Failure(Raised(EmptyVocabulary)) && currentSessionId == old(currentSessionId)
                                        && db.achievements == old(db.achievements))
      ensures old(Active()) && old(currentSessionId.value) in old(db.sessions) ==>
                (db.Rows() != [] ==>
                      r.Success? && currentSessionId == None
                      && r.value.sessionStats == stats && r.value.accuracy == Accuracy(stats)
                      && r.value.levelInfo == LevelInfoFor(db.userStats)
                      && r.value.ottoSummary == Personality.SessionSummary(SummaryInput(stats, AccuracyTenths(stats), db.userStats.currentLevel), pick)
                      && r.value.streakInfo == db.GetStreakInfo()
                      && db.achievements == RefreshAll(old(db.achievements), db.Progress(), now)
                      && r.value.newAchievements == NewlyUnlocked(old(db.achievements), db.Progress()))
    {
      if !Active() {
        return Failure(NoActiveSession);
      }
      var sessionId := currentSessionId.value;
      var accuracy := Accuracy(stats);
      var o := db.EndSession(sessionId, stats.xpEarned, stats.wordsLearned, stats.reviewsCompleted,
                             stats.incorrectCount, "", now, today);
      if o.Fail? {
        return Failure(Raised(o.error));
      }
      var levelInfo := GetCurrentLevelInfo(db);
      var unlocked := db.CheckAndUnlockAchievements(now);
      if unlocked.Failure? {
        return Failure(Raised(unlocked.error));
      }
      LevelInfoShape(db.userStats);
      var otto := Personality.SessionSummary(SummaryInput(stats, AccuracyTenths(stats), levelInfo.value.currentLevel), pick);
      var streakInfo := db.GetStreakInfo();
      currentSessionId := None;
      r := Success(SessionSummary(stats, accuracy, levelInfo, unlocked.value, otto, streakInfo));
    }

    /** flashcard_mode: one card per word, in order, each turned the way its
        coin fell. */
    method FlashcardMode(words: seq<VocabItem>, coins: seq<bool>) returns (cards: seq<Flashcard>)
      ensures |cards| == |words|
      ensures forall k :: 0 <= k < |words| ==> cards[k] == CardFor(words[k], CoinAt(coins, k))
      ensures forall k :: 0 <= k < |words| ==> cards[k].id == words[k].id
    {
      cards := [];
      var i := 0;
      while i < |words|
        invariant 0 <= i <= |words| && |cards| == i
        invariant forall k :: 0 <= k < i ==> cards[k] == CardFor(words[k], CoinAt(coins, k))
      {
        cards := cards + [CardFor(words[i], CoinAt(coins, i))];
        i := i + 1;
      }
    }

    /** The distractor pool: the other words of the same level. */
    function Distractors(word: VocabItem): (r: seq<VocabItem>)
      reads db
      ensures forall w :: w in r <==> w in db.Rows() && w.cefrLevel == word.cefrLevel && w.id != word.id
    {
      var all := db.GetVocabularyByLevel(word.cefrLevel);
      FilterMembers(all, (w: VocabItem) => w.id != word.id);
      Filter(all, (w: VocabItem) => w.id != word.id)
    }

    /** multiple_choice_mode: the correct translation plus the first
        num_choices - 1 shuffled distractors' translations, shuffled again.
        `picks` and `order` are the two shuffles' draws. For num_choices <= 0
        the slice `[:num_choices - 1]` counts from the end, so the question
        can have more choices than asked for. */
    function MultipleChoiceMode(word: VocabItem, numChoices: int, picks: seq<nat>, order: seq<nat>)
      : (q: ChoiceQuestion)
      reads db
      ensures q.correctAnswer == word.translation && word.translation in q.choices
      ensures q.word == word.word && q.vocabId == word.id
      ensures numChoices >= 1 ==> |q.choices| == Min(numChoices, 1 + |Distractors(word)|)
      ensures numChoices <= 0 ==> |q.choices| == Max(|Distractors(word)| + numChoices, 1)
      ensures forall c :: c in q.choices ==>
                c == word.translation || exists w :: w in Distractors(word) && w.translation == c
    {
      var pool := Distractors(word);
      var shuffled := Shuffle(pool, picks);
      var kept := PyTake(shuffled, numChoices - 1);
      var options := [word.translation] + MapSeq(kept, Translation);
      var choices := Shuffle(options, order);
      ChoicesFromPool(word, pool, shuffled, kept, options, choices);
      ChoiceQuestion(word.word, choices, word.translation, word.exampleSentence, word.id)
    }

    /** fill_in_blank_mode: None without an example or when the word does
        not occur in it; otherwise every occurrence becomes the blank. */
    static function FillInBlankMode(word: VocabItem): (b: Option<BlankQuestion>)
      ensures b.None? <==> word.exampleSentence.None? || word.exampleSentence.value == []
                           || !Contains(word.exampleSentence.value, word.word)
      ensures b.Some? ==> b.value.answer == word.word && b.value.vocabId == word.id
                          && b.value.question == ReplaceAll(word.exampleSentence.value, word.word, BlankMarker)
      ensures b.Some? && word.word != [] && Foreign(BlankMarker, word.word) ==>
                !Contains(b.value.question, word.word)
    {
      match word.exampleSentence
      case None => None
      case Some(example) =>
        if example == [] || !Contains(example, word.word) then None
        else
          BlankHidesWord(example, word.word);
          Some(BlankQuestion(ReplaceAll(example, word.word, BlankMarker), word.word,
                             word.exampleTranslation, word.id))
    }
  }

  /** The reasoning behind multiple_choice_mode's contract: sizes through the
      two shuffles and the slice, and where each choice comes from. */
  lemma ChoicesFromPool(word: VocabItem, pool: seq<VocabItem>, shuffled: seq<VocabItem>,
                        kept: seq<VocabItem>, options: seq<string>, choices: seq<string>)
    requires multiset(shuffled) == multiset(pool) && |shuffled| == |pool|
    requires |kept| <= |shuffled| && kept == shuffled[..|kept|]
    requires options == [word.translation] + MapSeq(kept, Translation)
    requires multiset(choices) == multiset(options) && |choices| == |options|
    ensures word.translation in choices
    ensures |choices| == 1 + |kept|
    ensures forall c :: c in choices ==> c == word.translation || exists w :: w in pool && w.translation == c
  {
    assert options[0] == word.translation;
    assert word.translation in multiset(options);
    KeptFromPool(pool, shuffled, kept);
    forall c | c in choices
      ensures c == word.translation || exists w :: w in pool && w.translation == c
    {
      assert c in multiset(choices);
      assert c in options;
      if c != word.translation {
        var w := NamedBy(kept, c);
        assert w in pool;
      }
    }
  }

  /** A prefix of a shuffle of the pool holds only pool words. */
  lemma KeptFromPool(pool: seq<VocabItem>, shuffled: seq<VocabItem>, kept: seq<VocabItem>)
    requires multiset(shuffled) == multiset(pool)
    requires |kept| <= |shuffled| && kept == shuffled[..|kept|]
    ensures forall w :: w in kept ==> w in pool
  {
    forall w | w in kept ensures w in pool {
      assert w in shuffled;
      assert w in multiset(shuffled);
    }
  }

  /** A translation listed for the kept words names one of them. */
  function NamedBy(kept: seq<VocabItem>, c: string): (w: VocabItem)
    requires c in MapSeq(kept, Translation)
    ensures w in kept && w.translation == c
  {
    var k := PositionOf(MapSeq(kept, Translation), c);
    kept[k]
  }
}

/** The spaced-repetition layer of app/gamification/srs.py: the review
    queue, the new-word list, a single review, per-word accuracy, the study
    figures with their daily caps, the review forecast and bulk import. */
module Srs {
  import opened Wrappers
  import opened Numeric
  import opened Seqs
  import opened Config
  import opened DbManager

  /** _calculate_word_accuracy (unrounded). */
  function WordAccuracy(v: VocabItem): real {
    if v.timesSeen == 0 then 0.0 else v.timesCorrect as real / v.timesSeen as real * 100.0
  }

  /** The accuracy is a percentage whenever the correct count lies between 0
      and the seen count, and it is 100 exactly when every review was correct. */
  lemma WordAccuracyBounded(v: VocabItem)
    requires 0 <= v.timesCorrect <= v.timesSeen
    ensures 0.0 <= WordAccuracy(v) <= 100.0
    ensures v.timesSeen > 0 ==> (WordAccuracy(v) == 100.0 <==> v.timesCorrect == v.timesSeen)
  {
    if v.timesSeen > 0 {
      var q := v.timesCorrect as real / v.timesSeen as real;
      assert q * v.timesSeen as real == v.timesCorrect as real;
    }
  }

  /** A word reviewed by the database keeps a bounded accuracy: a review adds
      one sighting and at most one correct answer. */
  lemma ReviewKeepsAccuracyBounded(v: VocabItem, g: Grade, now: int)
    requires 0 <= v.timesCorrect <= v.timesSeen
    ensures 0.0 <= WordAccuracy(Review(v, g, now)) <= 100.0
  {
    WordAccuracyBounded(Review(v, g, now));
  }

  /** What review_word returns. */
  datatype ReviewResult = ReviewResult(
    word: string, difficulty: string, nextReview: int, intervalDays: int,
    mastered: bool, accuracy: real)

  /** What get_study_stats returns, without the average accuracy. */
  datatype StudyStats = StudyStats(
    reviewsToday: nat, dueReviews: nat, newWordsAvailable: nat, masteredWords: nat,
    recommendedReviews: int, recommendedNewWords: int)

  /** The study plan caps: reviews at review_cards_per_day, new words at
      new_cards_per_day. */
  function Recommend(due: nat, unseen: nat): (r: (int, int))
    ensures r.0 <= due && r.0 <= ReviewCardsPerDay && (r.0 == due || r.0 == ReviewCardsPerDay)
    ensures r.1 <= unseen && r.1 <= NewCardsPerDay && (r.1 == unseen || r.1 == NewCardsPerDay)
  {
    (Min(due, ReviewCardsPerDay), Min(unseen, NewCardsPerDay))
  }

  predicate IsNew(v: VocabItem) {
    v.timesSeen == 0
  }

  predicate ReviewedOn(v: VocabItem, today: int) {
    v.lastReviewed.Some? && DayOf(v.lastReviewed.value) == today
  }

  predicate DueOn(v: VocabItem, day: int) {
    DayOf(v.nextReview) == day && !v.mastered
  }

  /** The forecast figure for one day: unmastered rows whose next review
      falls on it. */
  function DueCount(rows: seq<VocabItem>, day: int): (n: nat)
    ensures n <= |rows|
    ensures n == |Filter(rows, v => DueOn(v, day))|
  {
    Count(rows, v => DueOn(v, day))
  }

  /** The keyword call bulk_add_words makes for one entry, and why it fails:
      a missing 'word' or 'translation' raises KeyError while the arguments
      are evaluated, and otherwise '**word_data' passes 'word' a second time. */
  datatype CallError = MissingKey(key: string) | DuplicateKeyword(name: string)

  function KeywordCall(entry: map<string, string>): Result<(), CallError> {
    if "word" !in entry then Failure(MissingKey("word"))
    else if "translation" !in entry then Failure(MissingKey("translation"))
    else Failure(DuplicateKeyword("word"))
  }

  /** No entry gets past the call, and the failures are counted as such. */
  lemma {:induction false} NoEntryIsAdded(entries: seq<map<string, string>>)
    ensures Count(entries, e => KeywordCall(e).Success?) == 0
  {
    FilterNone(entries, e => KeywordCall(e).Success?);
  }

  /** The set of the first n days from `start`. */
  ghost function DaysFrom(start: int, n: int): set<int>
    decreases n
  {
    if n <= 0 then {} else DaysFrom(start, n - 1) + {start + n - 1}
  }

  lemma {:induction false} DaysFromMembers(start: int, n: int)
    ensures forall d :: d in DaysFrom(start, n) <==> start <= d < start + n
    decreases n
  {
    if n > 0 {
      DaysFromMembers(start, n - 1);
    }
  }

  /** The forecast covers max(days, 0) distinct days. */
  lemma {:induction false} DaysFromSize(start: int, n: int)
    ensures |DaysFrom(start, n)| == Max(n, 0)
    decreases n
  {
    if n > 0 {
      DaysFromSize(start, n - 1);
      DaysFromMembers(start, n - 1);
    }
  }

  /** A map keyed by exactly the days in [start, start + n) has those keys
      and max(n, 0) entries. */
  lemma ForecastCoversDays(forecast: map<int, nat>, start: int, n: int)
    requires forall d :: d in forecast <==> start <= d < start + n
    ensures forecast.Keys == DaysFrom(start, n)
    ensures |forecast| == Max(n, 0)
  {
    DaysFromMembers(start, n);
    var keys, span := forecast.Keys, DaysFrom(start, n);
    assert forall d :: d in keys <==> d in span;
    assert keys == span;
    DaysFromSize(start, n);
    assert |forecast.Keys| == |forecast|;
  }

  class SpacedRepetitionSystem {
    const db: DatabaseManager

    constructor (db: DatabaseManager)
      ensures this.db == db
    {
      this.db := db;
    }

    /** get_review_queue: the due reviews (review_cards_per_day of them by
        default) in the order the shuffle draws. */
    function GetReviewQueue(limit: Option<int>, now: int, picks: seq<nat>): (r: seq<VocabItem>)
      reads db
      ensures multiset(r) == multiset(db.GetDueReviews(now, limit.GetOr(ReviewCardsPerDay)))
      ensures forall v :: v in r ==> v in db.Rows() && IsDue(v, now)
    {
      var due := db.GetDueReviews(now, limit.GetOr(ReviewCardsPerDay));
      var r := Shuffle(due, picks);
      assert forall v :: v in r ==> v in multiset(due);
      r
    }

    /** get_new_words: the first `limit` (new_cards_per_day by default)
        never-seen words of the level, in the by-level order. */
    function GetNewWords(cefrLevel: string, limit: Option<int>): (r: seq<VocabItem>)
      reads db
      ensures var unseen := Filter(db.GetVocabularyByLevel(cefrLevel), IsNew);
              var n := limit.GetOr(NewCardsPerDay);
              |r| <= |unseen| && r == unseen[..|r|] && (n >= 0 ==> |r| == Min(n, |unseen|))
      ensures forall v :: v in r ==> v in db.Rows() && v.cefrLevel == cefrLevel && v.timesSeen == 0
    {
      var all := db.GetVocabularyByLevel(cefrLevel);
      var unseen := Filter(all, IsNew);
      FilterMembers(all, IsNew);
      var r := PyTake(unseen, limit.GetOr(NewCardsPerDay));
      assert forall v :: v in r ==> v in unseen;
      r
    }

    /** review_word: the database update, then the stored row's schedule and
        accuracy. A failing update propagates and nothing changes. */
    method ReviewWord(vocabId: int, difficulty: string, now: int) returns (r: Result<ReviewResult, DbError>)
      requires db.Valid()
      modifies db`vocabulary
      ensures db.Valid()
      ensures vocabId !in old(db.vocabulary) ==> r == Failure(NoSuchVocabulary) && db.vocabulary == old(db.vocabulary)
      ensures vocabId in old(db.vocabulary) && ParseGrade(difficulty).None? ==>
                r == Failure(UnknownGrade) && db.vocabulary == old(db.vocabulary)
      ensures vocabId in old(db.vocabulary) && ParseGrade(difficulty).Some? ==>
                var w := Review(old(db.vocabulary)[vocabId], ParseGrade(difficulty).value, now);
                db.vocabulary == old(db.vocabulary)[vocabId := w]
                && r == Success(ReviewResult(w.word, difficulty, w.nextReview, w.intervalDays,
                                             w.mastered, WordAccuracy(w)))
    {
      var o := db.UpdateVocabularyReview(vocabId, difficulty, now);
      if o.Fail? {
        return Failure(o.error);
      }
      var word := db.GetVocabularyById(vocabId).value;
      r := Success(ReviewResult(word.word, difficulty, word.nextReview, word.intervalDays,
                                word.mastered, WordAccuracy(word)));
    }

    /** get_study_stats on day `today` at time `now`. */
    function GetStudyStats(now: int, today: int): (s: StudyStats)
      reads db
      ensures s.recommendedReviews == Min(s.dueReviews, ReviewCardsPerDay)
      ensures s.recommendedNewWords == Min(s.newWordsAvailable, NewCardsPerDay)
      ensures s.dueReviews == Count(db.Rows(), v => IsDue(v, now))
      ensures s.newWordsAvailable == Count(db.Rows(), IsNew)
    {
      var rows := db.Rows();
      var due := Count(rows, v => IsDue(v, now));
      var unseen := Count(rows, IsNew);
      var caps := Recommend(due, unseen);
      StudyStats(Count(rows, v => ReviewedOn(v, today)), due, unseen,
                 Count(rows, (v: VocabItem) => v.mastered), caps.0, caps.1)
    }

    /** get_review_forecast: one entry per day for `days` days from today,
        each the number of unmastered words due that day. */
    method GetReviewForecast(today: int, days: int) returns (forecast: map<int, nat>)
      ensures forecast.Keys == DaysFrom(today, days)
      ensures |forecast| == Max(days, 0)
      ensures forall day :: day in forecast ==> forecast[day] == DueCount(db.Rows(), day)
    {
      forecast := map[];
      var rows := db.Rows();
      var i := 0;
      while i < days
        invariant 0 <= i <= Max(days, 0)
        invariant forall d :: d in forecast <==> today <= d < today + i
        invariant forall day :: day in forecast ==> forecast[day] == DueCount(rows, day)
      {
        var targetDate := today + i;
        var count := DueCount(rows, targetDate);
        forecast := forecast[targetDate := count];
        i := i + 1;
      }
      ForecastCoversDays(forecast, today, days);
    }

    /** bulk_add_words: counts the entries whose call succeeds; a failing
        call is skipped. No entry's call succeeds, so the count is 0 and,
        as the absent modifies clause says, the table is untouched. */
    method BulkAddWords(entries: seq<map<string, string>>, cefrLevel: string) returns (added: nat)
      ensures added == Count(entries, e => KeywordCall(e).Success?)
      ensures added == 0
    {
      added := 0;
      var i := 0;
      while i < |entries|
        invariant 0 <= i <= |entries|
        invariant added == Count(entries[..i], e => KeywordCall(e).Success?)
      {
        var entry := entries[i];
        var call := KeywordCall(entry);
        assert entries[..i + 1] == entries[..i] + [entry];
        FilterAppend(entries[..i], [entry], e => KeywordCall(e).Success?);
        if call.Success? {
          // the add_vocabulary call is never reached
          assert false;
        }
        i := i + 1;
      }
      assert entries[..i] == entries;
      NoEntryIsAdded(entries);
    }
  }
}

/** The message selection of Otto von Lehrer, app/buddy/personality.py: the
    greeting by hour and streak, the motivation line for a streak, the
    difficulty suggestion and the end-of-session summary. The random picks
    are indices supplied by the caller. */
module Personality {
  import opened Wrappers
  import opened Strings
  import opened Seqs

  // ---------------------------------------------------------------- greeting

  /** The time-of-day half of the greeting. */
  function TimeGreeting(hour: int): (g: string)
    ensures g == "Guten Morgen" <==> 5 <= hour < 12
    ensures g == "Guten Tag" <==> 12 <= hour < 18
    ensures g == "Guten Abend" <==> 18 <= hour < 22
    ensures g == "Hallo" <==> hour < 5 || hour >= 22
  {
    if 5 <= hour < 12 then "Guten Morgen"
    else if 12 <= hour < 18 then "Guten Tag"
    else if 18 <= hour < 22 then "Guten Abend"
    else "Hallo"
  }

  /** Which celebration a streak earns. */
  datatype StreakTier = Unstoppable | Crushing | InARow | Going | NoStreak

  /** The tiers are checked from the top, so each covers one band. */
  function StreakTierOf(streak: int): (t: StreakTier)
    ensures t == Unstoppable <==> streak >= 100
    ensures t == Crushing <==> 30 <= streak < 100
    ensures t == InARow <==> 7 <= streak < 30
    ensures t == Going <==> 3 <= streak < 7
    ensures t == NoStreak <==> streak < 3
  {
    if streak >= 100 then Unstoppable
    else if streak >= 30 then Crushing
    else if streak >= 7 then InARow
    else if streak >= 3 then Going
    else NoStreak
  }

  const EncouragingMessages: seq<string> := [
    "Ready to learn some German today?",
    "Let's make some progress together!",
    "Your brain is ready for German!",
    "Time to level up your German skills!",
    "Auf geht's! Let's do this!"
  ]

  /** The streak half of the greeting; `pick` stands for random.choice. */
  function StreakLine(streak: int, pick: nat): string {
    match StreakTierOf(streak)
    case Unstoppable => "🔥 WOW! " + Decimal(streak) + " days! You're absolutely unstoppable!"
    case Crushing => "🔥 " + Decimal(streak) + "-day streak! You're crushing it!"
    case InARow => "🔥 " + Decimal(streak) + " days in a row! Keep it up!"
    case Going => "Nice! " + Decimal(streak) + "-day streak going!"
    case NoStreak => EncouragingMessages[pick % |EncouragingMessages|]
  }

  /** get_greeting for the hour of the clock and the current streak. */
  function Greeting(hour: int, streak: int, pick: nat): (g: string)
    ensures StartsWith(g, TimeGreeting(hour) + "! ")
    ensures streak < 3 ==> g[|TimeGreeting(hour)| + 2..] in EncouragingMessages
    ensures streak >= 3 ==> Contains(g, Decimal(streak))
  {
    var head := TimeGreeting(hour) + "! ";
    var line := StreakLine(streak, pick);
    var g := head + line;
    assert g[..|head|] == head && g[|head|..] == line;
    PrefixKeepsStreak(head, streak, pick);
    g
  }

  lemma PrefixKeepsStreak(head: string, streak: int, pick: nat)
    ensures streak >= 3 ==> Contains(head + StreakLine(streak, pick), Decimal(streak))
  {
    if streak >= 3 {
      StreakLineNamesStreak(streak, pick);
      ContainsPrepend(head, StreakLine(streak, pick), Decimal(streak));
    }
  }

  /** Every celebration writes the streak's length. */
  lemma StreakLineNamesStreak(streak: int, pick: nat)
    requires streak >= 3
    ensures Contains(StreakLine(streak, pick), Decimal(streak))
  {
    var n := Decimal(streak);
    match StreakTierOf(streak)
    case Unstoppable => Embedded("🔥 WOW! ", n, " days! You're absolutely unstoppable!");
    case Crushing => Embedded("🔥 ", n, "-day streak! You're crushing it!");
    case InARow => Embedded("🔥 ", n, " days in a row! Keep it up!");
    case Going => Embedded("Nice! ", n, "-day streak going!");
  }

  // ---------------------------------------------------------------- motivation

  /** The streaks with a message of their own. */
  const DedicatedMotivation: map<int, string> := map[
    0 := "🌱 Every journey starts with a single step. Let's begin today!",
    1 := "🌿 Great start! Come back tomorrow to build your streak!",
    2 := "🍀 Two days! You're building momentum!",
    6 := "🔥 Tomorrow makes one week! Don't break it now!",
    7 := "🎉 One full week! This is becoming a habit!",
    29 := "🚀 Tomorrow is 30 days! You're incredible!",
    30 := "👑 THIRTY DAYS! You're a learning machine!",
    99 := "💥 Tomorrow is 100 DAYS! This is legendary!",
    100 := "🏆 ONE HUNDRED DAYS! You're unstoppable! This is true dedication!"
  ]

  function DecadeMotivation(streak: int): string {
    "⭐ " + Decimal(streak) + " days! You're an inspiration!"
  }

  function GenericMotivation(streak: int): string {
    "💪 " + Decimal(streak) + "-day streak! Keep the fire burning!"
  }

  /** get_motivation_by_streak: a dedicated message wins over the round
      number one, which wins over the generic one. Python's `%` and Dafny's
      differ on negative operands but agree on divisibility by 10. */
  function MotivationByStreak(streak: int): (m: string)
    ensures streak in DedicatedMotivation ==> m == DedicatedMotivation[streak]
    ensures streak !in DedicatedMotivation && streak % 10 == 0 ==> m == DecadeMotivation(streak)
    ensures streak !in DedicatedMotivation && streak % 10 != 0 ==> m == GenericMotivation(streak)
  {
    if streak == 0 then "🌱 Every journey starts with a single step. Let's begin today!"
    else if streak == 1 then "🌿 Great start! Come back tomorrow to build your streak!"
    else if streak == 2 then "🍀 Two days! You're building momentum!"
    else if streak == 6 then "🔥 Tomorrow makes one week! Don't break it now!"
    else if streak == 7 then "🎉 One full week! This is becoming a habit!"
    else if streak == 29 then "🚀 Tomorrow is 30 days! You're incredible!"
    else if streak == 30 then "👑 THIRTY DAYS! You're a learning machine!"
    else if streak == 99 then "💥 Tomorrow is 100 DAYS! This is legendary!"
    else if streak == 100 then "🏆 ONE HUNDRED DAYS! You're unstoppable! This is true dedication!"
    else if streak % 10 == 0 then DecadeMotivation(streak)
    else GenericMotivation(streak)
  }

  // ---------------------------------------------------------------- difficulty

  const EasierSuggestion := "🤔 I notice you're finding this challenging. Want to try some easier exercises first? No pressure!"
  const HarderSuggestion := "🌟 You're crushing this level! Ready to try something more challenging?"

  /** suggest_difficulty_adjustment: easier below 50 %, harder above 95 %
      unless the learner is already at B2, and nothing in between. */
  function SuggestDifficulty(accuracy: real, currentLevel: string): (r: Option<string>)
    ensures r.Some? <==> accuracy < 50.0 || (accuracy > 95.0 && currentLevel != "B2")
    ensures accuracy < 50.0 ==> r == Some(EasierSuggestion)
    ensures accuracy >= 50.0 && r.Some? ==> r == Some(HarderSuggestion)
    ensures currentLevel == "B2" ==> r != Some(HarderSuggestion)
  {
    if accuracy < 50.0 then Some(EasierSuggestion)
    else if accuracy > 95.0 && currentLevel != "B2" then Some(HarderSuggestion)
    else None
  }

  // ---------------------------------------------------------------- session summary

  /** The `session_data` dictionary; a missing key is None. The accuracy is
      carried in tenths of a percent, which is what `round(accuracy, 1)`
      delivers. */
  datatype SessionData = SessionData(
    durationSeconds: Option<int>, xpEarned: Option<int>, wordsLearned: Option<int>,
    accuracyTenths: Option<int>, leveledUp: Option<bool>, newLevel: Option<int>)

  /** Otto's comment tiers. */
  datatype Comment = Outstanding | DoingWell | Improving | KeepGoing

  function CommentFor(accuracyTenths: int): (c: Comment)
    ensures c == Outstanding <==> accuracyTenths >= 900
    ensures c == DoingWell <==> 750 <= accuracyTenths < 900
    ensures c == Improving <==> 600 <= accuracyTenths < 750
    ensures c == KeepGoing <==> accuracyTenths < 600
  {
    if accuracyTenths >= 900 then Outstanding
    else if accuracyTenths >= 750 then DoingWell
    else if accuracyTenths >= 600 then Improving
    else KeepGoing
  }

  /** One paragraph of the summary. */
  datatype SummaryPart =
    | Heading
    | LevelUp(level: int)
    | TimeStudied(minutes: int)
    | XpEarned(xp: int)
    | WordsLearned(words: int)
    | AccuracyShown(tenths: int)
    | Gap
    | OttoSays(comment: Comment)
    | Closer(index: nat)

  const Closers: seq<string> := [
    "\nSee you next time! Bis bald! 👋",
    "\nGreat work today! Tschüss! 🎓",
    "\nI'm proud of you! Bis später! ⭐",
    "\nKeep it up! Mach's gut! 🚀"
  ]

  /** The paragraphs get_session_summary writes, in order; a level-up
      without a 'new_level' entry raises KeyError. */
  function SummaryParts(d: SessionData, pick: nat): Result<seq<SummaryPart>, string> {
    var leveled := d.leveledUp.GetOr(false);
    var words := d.wordsLearned.GetOr(0);
    var accuracy := d.accuracyTenths.GetOr(0);
    if leveled && d.newLevel.None? then Failure("new_level")
    else
      Success([Heading]
              + Optional(leveled, LevelUp(d.newLevel.GetOr(0)))
              + [TimeStudied(d.durationSeconds.GetOr(0) / 60), XpEarned(d.xpEarned.GetOr(0))]
              + Optional(words > 0, WordsLearned(words))
              + Optional(accuracy > 0, AccuracyShown(accuracy))
              + [Gap, OttoSays(CommentFor(accuracy)), Closer(pick % |Closers|)])
  }

  /** A paragraph written only under a condition. */
  function Optional(written: bool, p: SummaryPart): seq<SummaryPart> {
    if written then [p] else []
  }

  predicate IsLevelUp(p: SummaryPart) { p.LevelUp? }
  predicate IsWordsLine(p: SummaryPart) { p.WordsLearned? }
  predicate IsAccuracyLine(p: SummaryPart) { p.AccuracyShown? }

  lemma CountOptional(written: bool, x: SummaryPart, p: SummaryPart -> bool)
    ensures Count(Optional(written, x), p) == if written && p(x) then 1 else 0
  {
    if written {
      assert Optional(written, x)[1..] == [];
    }
  }

  lemma CountNone(s: seq<SummaryPart>, p: SummaryPart -> bool)
    requires forall k :: 0 <= k < |s| ==> !p(s[k])
    ensures Count(s, p) == 0
  {
    FilterNone(s, p);
  }

  /** Counting over the six stretches of the summary, the first, third and
      last of which hold no paragraph of the kind counted. */
  lemma CountKinds(a: seq<SummaryPart>, b: seq<SummaryPart>, c: seq<SummaryPart>,
                   e: seq<SummaryPart>, f: seq<SummaryPart>, g: seq<SummaryPart>, p: SummaryPart -> bool)
    requires forall k :: 0 <= k < |a| ==> !p(a[k])
    requires forall k :: 0 <= k < |c| ==> !p(c[k])
    requires forall k :: 0 <= k < |g| ==> !p(g[k])
    ensures Count(a + b + c + e + f + g, p) == Count(b, p) + Count(e, p) + Count(f, p)
  {
    FilterAppend(a, b, p);
    FilterAppend(a + b, c, p);
    FilterAppend(a + b + c, e, p);
    FilterAppend(a + b + c + e, f, p);
    FilterAppend(a + b + c + e + f, g, p);
    CountNone(a, p);
    CountNone(c, p);
    CountNone(g, p);
  }

  /** The summary fails only on a level-up without its level; otherwise it
      has the level-up header exactly when the learner levelled up, the
      words line exactly when words were learned and the accuracy line
      exactly when the accuracy is positive. */
  lemma SummaryReportsSession(d: SessionData, pick: nat)
    ensures SummaryParts(d, pick).Failure? <==> d.leveledUp.GetOr(false) && d.newLevel.None?
    ensures SummaryParts(d, pick).Success? ==>
              var parts := SummaryParts(d, pick).value;
              Count(parts, IsLevelUp) == (if d.leveledUp.GetOr(false) then 1 else 0)
              && Count(parts, IsWordsLine) == (if d.wordsLearned.GetOr(0) > 0 then 1 else 0)
              && Count(parts, IsAccuracyLine) == (if d.accuracyTenths.GetOr(0) > 0 then 1 else 0)
  {
    if SummaryParts(d, pick).Success? {
      CountInSummary(d, pick, IsLevelUp);
      CountInSummary(d, pick, IsWordsLine);
      CountInSummary(d, pick, IsAccuracyLine);
    }
  }

  /** The count of one kind of optional paragraph in a summary. */
  lemma CountInSummary(d: SessionData, pick: nat, p: SummaryPart -> bool)
    requires SummaryParts(d, pick).Success?
    requires p == IsLevelUp || p == IsWordsLine || p == IsAccuracyLine
    ensures var leveled := d.leveledUp.GetOr(false);
            var words := d.wordsLearned.GetOr(0);
            var accuracy := d.accuracyTenths.GetOr(0);
            Count(SummaryParts(d, pick).value, p)
            == (if leveled && p(LevelUp(d.newLevel.GetOr(0))) then 1 else 0)
             + (if words > 0 && p(WordsLearned(words)) then 1 else 0)
             + (if accuracy > 0 && p(AccuracyShown(accuracy)) then 1 else 0)
  {
    var leveled := d.leveledUp.GetOr(false);
    var words := d.wordsLearned.GetOr(0);
    var accuracy := d.accuracyTenths.GetOr(0);
    var a: seq<SummaryPart> := [Heading];
    var bx, ex, fx := LevelUp(d.newLevel.GetOr(0)), WordsLearned(words), AccuracyShown(accuracy);
    var b := Optional(leveled, bx);
    var c: seq<SummaryPart> := [TimeStudied(d.durationSeconds.GetOr(0) / 60), XpEarned(d.xpEarned.GetOr(0))];
    var e := Optional(words > 0, ex);
    var f := Optional(accuracy > 0, fx);
    var g: seq<SummaryPart> := [Gap, OttoSays(CommentFor(accuracy)), Closer(pick % |Closers|)];
    assert SummaryParts(d, pick).value == a + b + c + e + f + g;
    CountKinds(a, b, c, e, f, g, p);
    CountOptional(leveled, bx, p);
    CountOptional(words > 0, ex, p);
    CountOptional(accuracy > 0, fx, p);
  }

  /** The time is floored to whole minutes, and the summary ends with the
      comment for the accuracy and one of the closers. */
  lemma SummaryEnds(d: SessionData, pick: nat)
    requires SummaryParts(d, pick).Success?
    ensures var parts := SummaryParts(d, pick).value;
            TimeStudied(d.durationSeconds.GetOr(0) / 60) in parts
            && |parts| >= 4
            && parts[|parts| - 2] == OttoSays(CommentFor(d.accuracyTenths.GetOr(0)))
            && parts[|parts| - 1] == Closer(pick % |Closers|)
  {
    var parts := SummaryParts(d, pick).value;
    var front := [Heading] + Optional(d.leveledUp.GetOr(false), LevelUp(d.newLevel.GetOr(0)));
    assert parts[|front|] == TimeStudied(d.durationSeconds.GetOr(0) / 60);
  }

  function CommentText(c: Comment): string {
    match c
    case Outstanding => "Exzellent! Your accuracy is outstanding! You're really mastering this! 🌟"
    case DoingWell => "Sehr gut! You're doing really well! Keep up the great work! 💪"
    case Improving => "Gut gemacht! Good progress - you're improving with each session! 📈"
    case KeepGoing => "Don't worry about the mistakes - they're proof you're challenging yourself! Keep going! 🎯"
  }

  /** A positive accuracy in tenths as Python prints the rounded float. */
  function TenthsText(t: int): string {
    var u := if t < 0 then -t else t;
    (if t < 0 then "-" else "") + Decimal(u / 10) + "." + [DigitChar(u % 10)]
  }

  function PartText(p: SummaryPart): string {
    match p
    case Heading => "## 📊 Session Complete!\n\n"
    case LevelUp(n) => "### 🎉 **LEVEL UP!** You're now Level " + Decimal(n) + "!\n\n"
    case TimeStudied(m) => "⏱️ **Time studied:** " + Decimal(m) + " minutes\n"
    case XpEarned(x) => "⭐ **XP earned:** " + Decimal(x) + " XP\n"
    case WordsLearned(w) => "📚 **Words learned:** " + Decimal(w) + " words\n"
    case AccuracyShown(t) => "🎯 **Accuracy:** " + TenthsText(t) + "%\n"
    case Gap => "\n"
    case OttoSays(c) => "**Otto says:** " + CommentText(c) + "\n"
    case Closer(k) => Closers[k % |Closers|]
  }

  function RenderParts(parts: seq<SummaryPart>): string {
    if parts == [] then "" else PartText(parts[0]) + RenderParts(parts[1..])
  }

  /** get_session_summary: the paragraphs written out one after another. */
  function SessionSummary(d: SessionData, pick: nat): (r: Result<string, string>)
    ensures r.Failure? <==> SummaryParts(d, pick).Failure?
    ensures r.Success? ==> StartsWith(r.value, PartText(Heading))
  {
    match SummaryParts(d, pick)
    case Failure(key) => Failure(key)
    case Success(parts) =>
      assert parts[0] == Heading;
      var text := RenderParts(parts);
      assert text == PartText(Heading) + RenderParts(parts[1..]);
      Success(text)
  }
}

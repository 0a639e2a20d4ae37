/** The role-play conversation partner of app/buddy/conversation.py: the
    scenario catalogue, the active scenario with its message history and
    corrections, the prompt built from them and the closing summary. */
module Conversation {
  import opened Wrappers
  import opened Seqs
  import opened Strings

  datatype Scenario = Scenario(
    id: string, name: string, description: string, ottoRole: string, setting: string,
    learningGoals: seq<string>, initialMessage: string, vocabularyFocus: seq<string>)

  /** SCENARIOS, by CEFR level. */
  const Scenarios: map<string, seq<Scenario>> := map[
    "A1" := [
      Scenario("a1_greeting", "Greeting and Introduction",
               "Practice introducing yourself and basic greetings",
               "A friendly person you meet for the first time", "You meet someone new at a café",
               ["Greetings", "Name", "Basic questions"], "Hallo! Wie heißt du?",
               ["Hallo", "Wie geht's", "Ich heiße", "Woher kommst du"]),
      Scenario("a1_cafe", "Ordering at a Café", "Order food and drinks in German",
               "A waiter at a German café", "You're at a café and want to order something",
               ["Ordering", "Politeness", "Food vocabulary"], "Guten Tag! Was möchten Sie trinken?",
               ["Ich möchte", "bitte", "danke", "Kaffee", "Tee"]),
      Scenario("a1_shopping", "Shopping for Food", "Buy items at a grocery store",
               "A shopkeeper", "You're at a small grocery store",
               ["Numbers", "Food items", "Polite requests"], "Guten Morgen! Wie kann ich Ihnen helfen?",
               ["Ich brauche", "Wie viel kostet", "Apfel", "Brot"])],
    "A2" := [
      Scenario("a2_directions", "Asking for Directions", "Ask for and understand directions in a city",
               "A helpful local", "You're lost in Berlin and need help",
               ["Direction vocabulary", "Polite questions", "Location"],
               "Ja, kann ich Ihnen helfen? Sie sehen verloren aus!",
               ["Wo ist", "geradeaus", "links", "rechts"]),
      Scenario("a2_doctor", "At the Doctor", "Describe symptoms and health issues",
               "A doctor", "You're at a doctor's office",
               ["Body parts", "Symptoms", "Health vocabulary"], "Guten Tag! Was fehlt Ihnen heute?",
               ["Ich habe Schmerzen", "Kopf", "Bauch", "müde"])],
    "B1" := [
      Scenario("b1_job_interview", "Job Interview", "Practice a simple job interview",
               "An interviewer at a German company", "You're applying for a position",
               ["Professional vocabulary", "Past experiences", "Skills"],
               "Willkommen! Erzählen Sie mir etwas über sich.",
               ["Ich habe gearbeitet", "Erfahrung", "Fähigkeiten"])],
    "B2" := [
      Scenario("b2_debate", "Discussing Current Events", "Have an opinion-based discussion",
               "A friend discussing news", "Casual discussion about a current topic",
               ["Expressing opinions", "Arguments", "Complex sentences"],
               "Was denkst du über die aktuelle Situation?",
               ["Meiner Meinung nach", "Ich glaube", "Argument"])]]

  /** get_scenarios_by_level: the level's list, or [] for a level the
      catalogue does not have. */
  function GetScenariosByLevel(cefrLevel: string): (r: seq<Scenario>)
    ensures cefrLevel !in Scenarios ==> r == []
    ensures cefrLevel in Scenarios ==> r == Scenarios[cefrLevel]
  {
    if cefrLevel in Scenarios then Scenarios[cefrLevel] else []
  }

  /** The catalogue covers the four CEFR levels, each with at least one
      scenario. */
  lemma CatalogueLevels()
    ensures Scenarios.Keys == {"A1", "A2", "B1", "B2"}
    ensures forall level :: level in Scenarios ==> |Scenarios[level]| >= 1
  {
  }

  /** `next((s for s in scenarios if s['id'] == id), None)`. */
  function FindScenario(scenarios: seq<Scenario>, id: string): Option<Scenario> {
    if scenarios == [] then None
    else if scenarios[0].id == id then Some(scenarios[0])
    else FindScenario(scenarios[1..], id)
  }

  /** The search yields the first scenario with the id, and nothing exactly
      when no scenario has it. */
  lemma {:induction false} FindScenarioFirst(scenarios: seq<Scenario>, id: string)
    ensures FindScenario(scenarios, id).None? <==> forall k :: 0 <= k < |scenarios| ==> scenarios[k].id != id
    ensures FindScenario(scenarios, id).Some? ==>
              exists k :: 0 <= k < |scenarios| && scenarios[k] == FindScenario(scenarios, id).value
                          && scenarios[k].id == id && forall j :: 0 <= j < k ==> scenarios[j].id != id
  {
    if scenarios != [] && scenarios[0].id != id {
      var tail := scenarios[1..];
      FindScenarioFirst(tail, id);
      assert forall k :: 0 < k < |scenarios| ==> scenarios[k] == tail[k - 1];
      if FindScenario(tail, id).Some? {
        var k :| 0 <= k < |tail| && tail[k] == FindScenario(tail, id).value && tail[k].id == id
                 && forall j :: 0 <= j < k ==> tail[j].id != id;
        assert scenarios[k + 1] == tail[k];
      }
    } else if scenarios != [] {
      assert scenarios[0] == FindScenario(scenarios, id).value;
    }
  }

  datatype Role = Otto | User

  datatype Message = Message(role: Role, text: string, timestamp: int)

  datatype Correction = Correction(userText: string, correctedText: string, explanation: string, timestamp: int)

  datatype ScenarioStart = ScenarioStart(
    scenario: Scenario, ottoMessage: string, setting: string, learningGoals: seq<string>)

  /** The ValueError start_scenario raises. */
  datatype ScenarioError = ScenarioNotFound(scenarioId: string, cefrLevel: string)

  datatype ConversationSummary = ConversationSummary(
    scenarioName: string, totalMessages: nat, userMessages: nat, corrections: nat,
    history: seq<Message>, correctionsList: seq<Correction>)

  /** `", ".join(parts)`. */
  function JoinComma(parts: seq<string>): string {
    if parts == [] then "" else if |parts| == 1 then parts[0] else parts[0] + ", " + JoinComma(parts[1..])
  }

  /** The level the prompt names: the scenario records carry no
      `cefr_level`, so `.get('cefr_level', 'A1')` always yields A1. */
  const PromptLevel := "A1"

  const PromptIntro := "You are Otto von Lehrer, a friendly German language teacher playing the role of: "

  /** Otto's personality, as the prompt lists it. */
  const PromptPersonality := "\n\nYour personality:\n- Encouraging and patient\n- Stay in character for the roleplay"
    + "\n- Use German appropriate for " + PromptLevel + " level"
    + "\n- Keep responses natural and conversational"
    + "\n- If the user makes a mistake, gently correct it in your next response"

  /** The fixed framing of the prompt around the scenario's fields. */
  function PromptHeader(s: Scenario): string {
    PromptIntro + s.ottoRole + ".\n\nSetting: " + s.setting + PromptPersonality
    + "\n\nLearning goals for this scenario: " + JoinComma(s.learningGoals) + "\n\nConversation so far:\n"
  }

  const PromptFooter := "\nOtto (respond in character, in German, keeping it simple and conversational): "

  function Speaker(r: Role): string {
    match r
    case Otto => "Otto"
    case User => "Student"
  }

  /** The prompt line of one message. */
  function Line(m: Message): string {
    Speaker(m.role) + ": " + m.text + "\n"
  }

  /** The history as prompt lines, oldest first. */
  function HistoryLines(msgs: seq<Message>): string {
    if msgs == [] then "" else HistoryLines(msgs[..|msgs| - 1]) + Line(msgs[|msgs| - 1])
  }

  /** The lines of a history split anywhere are the lines of the two parts. */
  lemma {:induction false} HistoryLinesAppend(a: seq<Message>, b: seq<Message>)
    ensures HistoryLines(a + b) == HistoryLines(a) + HistoryLines(b)
    decreases |b|
  {
    if b != [] {
      var last := b[|b| - 1];
      assert (a + b)[..|a + b| - 1] == a + b[..|b| - 1];
      HistoryLinesAppend(a, b[..|b| - 1]);
    } else {
      assert a + b == a;
    }
  }

  /** Every message of the history has its line in the history's lines. */
  lemma {:induction false} EveryMessageListed(msgs: seq<Message>, k: int)
    requires 0 <= k < |msgs|
    ensures Contains(HistoryLines(msgs), Line(msgs[k]))
    decreases |msgs|
  {
    var init, last := msgs[..|msgs| - 1], msgs[|msgs| - 1];
    assert HistoryLines(msgs) == HistoryLines(init) + Line(last);
    if k == |msgs| - 1 {
      assert StartsWith(Line(last), Line(last));
      ContainsPrepend(HistoryLines(init), Line(last), Line(last));
    } else {
      assert init[k] == msgs[k];
      EveryMessageListed(init, k);
      ContainsAppend(HistoryLines(init), Line(last), Line(msgs[k]));
    }
  }

  /** The prompt built from a scenario and a history has the line of every
      message of that history. */
  lemma PromptListsHistory(s: Scenario, msgs: seq<Message>, userMessage: string, k: int)
    requires 0 <= k < |msgs|
    ensures Contains(PromptHeader(s) + HistoryLines(msgs) + Line(Message(User, userMessage, 0)) + PromptFooter,
                     Line(msgs[k]))
  {
    EveryMessageListed(msgs, k);
    ContainsPrepend(PromptHeader(s), HistoryLines(msgs), Line(msgs[k]));
    ContainsAppend(PromptHeader(s) + HistoryLines(msgs), Line(Message(User, userMessage, 0)), Line(msgs[k]));
    ContainsAppend(PromptHeader(s) + HistoryLines(msgs) + Line(Message(User, userMessage, 0)), PromptFooter,
                   Line(msgs[k]));
  }

  predicate IsUser(m: Message) { m.role == User }

  class ConversationManager {
    var currentScenario: Option<Scenario>
    var history: seq<Message>
    var corrections: seq<Correction>

    /** While a scenario runs, its history opens with Otto's first line. */
    ghost predicate Valid()
      reads this
    {
      currentScenario.Some? ==>
        history != [] && history[0].role == Otto && history[0].text == currentScenario.value.initialMessage
    }

    constructor ()
      ensures Valid()
      ensures currentScenario == None && history == [] && corrections == []
    {
      currentScenario := None;
      history := [];
      corrections := [];
    }

    /** start_scenario: an id not found at that level raises before any
        field changes; otherwise the scenario starts with Otto's opening
        line as the whole history and no corrections. */
    method StartScenario(scenarioId: string, cefrLevel: string, now: int) returns (r: Result<ScenarioStart, ScenarioError>)
      modifies this
      ensures Valid() || (r.Failure? && currentScenario == old(currentScenario) && !old(Valid()))
      ensures FindScenario(GetScenariosByLevel(cefrLevel), scenarioId).None? ==>
                r == Failure(ScenarioNotFound(scenarioId, cefrLevel))
                && currentScenario == old(currentScenario) && history == old(history) && corrections == old(corrections)
      ensures FindScenario(GetScenariosByLevel(cefrLevel), scenarioId).Some? ==>
                var s := FindScenario(GetScenariosByLevel(cefrLevel), scenarioId).value;
                && s.id == scenarioId && s in GetScenariosByLevel(cefrLevel)
                && currentScenario == Some(s)
                && history == [Message(Otto, s.initialMessage, now)] && corrections == []
                && r == Success(ScenarioStart(s, s.initialMessage, s.setting, s.learningGoals))
    {
      var scenarios := GetScenariosByLevel(cefrLevel);
      var scenario := FindScenario(scenarios, scenarioId);
      FindScenarioFirst(scenarios, scenarioId);
      if scenario.None? {
        return Failure(ScenarioNotFound(scenarioId, cefrLevel));
      }
      var s := scenario.value;
      currentScenario := Some(s);
      history := [];
      corrections := [];
      history := history + [Message(Otto, s.initialMessage, now)];
      r := Success(ScenarioStart(s, s.initialMessage, s.setting, s.learningGoals));
    }

    /** add_user_message: one entry at the end of the history. */
    method AddUserMessage(message: string, now: int)
      requires Valid()
      modifies this`history
      ensures Valid()
      ensures history == old(history) + [Message(User, message, now)]
    {
      history := history + [Message(User, message, now)];
    }

    /** add_otto_message: one entry at the end of the history. */
    method AddOttoMessage(message: string, now: int)
      requires Valid()
      modifies this`history
      ensures Valid()
      ensures history == old(history) + [Message(Otto, message, now)]
    {
      history := history + [Message(Otto, message, now)];
    }

    /** add_correction: one entry at the end of the corrections. */
    method AddCorrection(userText: string, correctedText: string, explanation: string, now: int)
      requires Valid()
      modifies this`corrections
      ensures Valid()
      ensures corrections == old(corrections) + [Correction(userText, correctedText, explanation, now)]
    {
      corrections := corrections + [Correction(userText, correctedText, explanation, now)];
    }

    /** build_conversation_prompt: "" with no scenario; otherwise the
        scenario framing, one line per history message in order, and the new
        student line. Nothing is modified. */
    method BuildConversationPrompt(userMessage: string) returns (prompt: string)
      ensures currentScenario.None? ==> prompt == ""
      ensures currentScenario.Some? ==>
                prompt == PromptHeader(currentScenario.value) + HistoryLines(history)
                          + Line(Message(User, userMessage, 0)) + PromptFooter
    {
      if currentScenario.None? {
        return "";
      }
      var scenario := currentScenario.value;
      var header := PromptHeader(scenario);
      var msgs := history;
      var lines := "";
      var i := 0;
      while i < |msgs|
        invariant 0 <= i <= |msgs|
        invariant lines == HistoryLines(msgs[..i])
      {
        var msg := msgs[i];
        var line := Speaker(msg.role) + ": " + msg.text + "\n";
        assert msgs[..i + 1][..i] == msgs[..i];
        lines := lines + line;
        i := i + 1;
      }
      assert msgs[..i] == msgs;
      prompt := header + lines + (Speaker(User) + ": " + userMessage + "\n") + PromptFooter;
    }

    /** end_conversation: None with no scenario (the source's empty dict);
        otherwise the counts, after which all three fields are reset. */
    method EndConversation() returns (r: Option<ConversationSummary>)
      requires Valid()
      modifies this
      ensures Valid()
      ensures old(currentScenario).None? ==>
                r == None && currentScenario == None && history == old(history) && corrections == old(corrections)
      ensures old(currentScenario).Some? ==>
                && r == Some(ConversationSummary(old(currentScenario).value.name, |old(history)|,
                                                 Count(old(history), IsUser), |old(corrections)|,
                                                 old(history), old(corrections)))
                && r.value.userMessages < r.value.totalMessages
                && currentScenario == None && history == [] && corrections == []
    {
      if currentScenario.None? {
        return None;
      }
      var totalMessages := |history|;
      var userMessages := Count(history, IsUser);
      OpeningIsNotUser(history);
      r := Some(ConversationSummary(currentScenario.value.name, totalMessages, userMessages,
                                    |corrections|, history, corrections));
      currentScenario := None;
      history := [];
      corrections := [];
    }
  }

  /** A history that opens with a line of Otto's has fewer user messages
      than messages. */
  lemma OpeningIsNotUser(h: seq<Message>)
    requires h != [] && h[0].role == Otto
    ensures Count(h, IsUser) < |h|
  {
    assert Filter(h, IsUser) == Filter(h[1..], IsUser);
  }
}

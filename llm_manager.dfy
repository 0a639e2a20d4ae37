/** The deterministic parts of app/models/llm_manager.py: the settings
    `generate` sends, the conversation and correction requests, the parser
    for the correction reply, and the canned replies of the stand-in model
    used when Ollama is absent. The HTTP exchange itself is the caller's:
    its outcome is a parameter. */
module LlmManager {
  import opened Wrappers
  import opened Strings
  import opened Config

  /** `'mistral' in model_name.lower()`. */
  predicate NamesMistral(modelName: string) {
    Contains(Lower(modelName), "mistral")
  }

  lemma MistralNameIsMistral()
    ensures NamesMistral(Mistral.modelName)
  {
    assert StartsWith(Lower(Mistral.modelName), "mistral");
  }

  lemma LlamaNameIsNotMistral()
    ensures !NamesMistral(Llama.modelName)
  {
    LowerLlamaName();
    var s := "llama3.1:8b-instruct-q4_k_m";
    assert forall k :: 0 <= k < |s| - 1 ==> !(s[k] == 'm' && s[k + 1] == 'i');
    NoPairNoContains(s, "mistral");
  }

  lemma LowerLlamaName()
    ensures Lower(Llama.modelName) == "llama3.1:8b-instruct-q4_k_m"
  {
  }

  /** The payload of the POST to /api/generate (the `stream` flag is always
      false). */
  datatype Request = Request(model: string, prompt: string, temperature: real, numPredict: int)

  /** generate's defaults: the mistral model when none is named; an unset
      temperature or token limit comes from the mistral settings when the
      model's name mentions mistral, and from the llama settings otherwise. */
  function GenerateRequest(prompt: string, modelName: Option<string>, temperature: Option<real>,
                           maxTokens: Option<int>): (q: Request)
    ensures q.model == modelName.GetOr(Mistral.modelName) && q.prompt == prompt
    ensures temperature.Some? ==> q.temperature == temperature.value
    ensures maxTokens.Some? ==> q.numPredict == maxTokens.value
    ensures temperature.None? ==>
              (q.temperature == Mistral.temperature <==> NamesMistral(q.model))
              && (q.temperature == Mistral.temperature || q.temperature == Llama.temperature)
    ensures maxTokens.None? ==>
              (q.numPredict == Mistral.maxTokens <==> NamesMistral(q.model))
              && (q.numPredict == Mistral.maxTokens || q.numPredict == Llama.maxTokens)
  {
    var model := modelName.GetOr(Mistral.modelName);
    var settings := if NamesMistral(model) then Mistral else Llama;
    Request(model, prompt, temperature.GetOr(settings.temperature), maxTokens.GetOr(settings.maxTokens))
  }

  /** With nothing given, generate asks the mistral model with its own
      settings. */
  lemma DefaultRequestIsMistral(prompt: string)
    ensures GenerateRequest(prompt, None, None, None)
            == Request(Mistral.modelName, prompt, Mistral.temperature, Mistral.maxTokens)
  {
    MistralNameIsMistral();
  }

  /** What generate returns for the answer of the server: None for a failed
      request (an error status, a timeout, no connection), otherwise the
      stripped 'response' field (the empty string when it is missing). */
  function GenerateReply(answer: Option<string>): (r: Option<string>)
    ensures r.Some? <==> answer.Some?
    ensures r.Some? ==> exists a, b :: 0 <= a <= b <= |answer.value| && AllSpace(answer.value[..a])
                          && AllSpace(answer.value[b..]) && r.value == answer.value[a..b]
    ensures r.Some? ==> r.value == [] || (!IsSpace(r.value[0]) && !IsSpace(r.value[|r.value| - 1]))
  {
    if answer.None? then None
    else
      StripSplits(answer.value);
      StripTrimmed(answer.value);
      Some(Strip(answer.value))
  }

  /** generate_conversation_response: mistral or llama, each with its own
      settings. */
  function ConversationRequest(prompt: string, useMistral: bool): (q: Request)
    ensures useMistral ==> q == Request(Mistral.modelName, prompt, Mistral.temperature, Mistral.maxTokens)
    ensures !useMistral ==> q == Request(Llama.modelName, prompt, Llama.temperature, Llama.maxTokens)
  {
    MistralNameIsMistral();
    LlamaNameIsNotMistral();
    GenerateRequest(prompt, Some(if useMistral then Mistral.modelName else Llama.modelName), None, None)
  }

  // ---------------------------------------------------------------- corrections

  const CorrectionIntro := "You are a German language teacher. Analyze this German text and provide corrections if needed.\n\nStudent's text: "
  const CorrectionFormat :=
    "\n\nProvide your response in this exact format:\nCORRECT: [yes/no]\n"
    + "CORRECTED_TEXT: [the corrected version, or same as original if correct]\n"
    + "EXPLANATION: [brief explanation of the mistake, or praise if correct]\n\n"
    + "Be encouraging and patient."

  /** The correction prompt quotes the learner's text; an empty context
      reads "General conversation". */
  function CorrectionPrompt(userText: string, context: string): (p: string)
    ensures Contains(p, "\"" + userText + "\"")
  {
    var quoted := "\"" + userText + "\"";
    var tail := "\nContext: " + (if context != "" then context else "General conversation") + CorrectionFormat;
    Embedded(CorrectionIntro, quoted, tail);
    CorrectionIntro + quoted + tail
  }

  /** generate_correction asks llama at temperature 0.3; the token limit is
      the llama one, since the llama model's name does not mention mistral. */
  function CorrectionRequest(userText: string, context: string): (q: Request)
    ensures q.model == Llama.modelName && q.temperature == 0.3 && q.numPredict == Llama.maxTokens
    ensures Contains(q.prompt, "\"" + userText + "\"")
  {
    LlamaNameIsNotMistral();
    GenerateRequest(CorrectionPrompt(userText, context), Some(Llama.modelName), Some(0.3), None)
  }

  /** The stripped halves of a `KEY: value` line, split at its first ':'. */
  function Key(line: string): string
    requires ':' in line
  {
    Strip(SplitFirst(line, ':').0)
  }

  function Value(line: string): string
    requires ':' in line
  {
    Strip(SplitFirst(line, ':').1)
  }

  /** The dictionary the reply's lines build, read first to last. */
  function Fields(lines: seq<string>): map<string, string>
    decreases |lines|
  {
    if lines == [] then map[]
    else
      var before := Fields(lines[..|lines| - 1]);
      var line := lines[|lines| - 1];
      if ':' in line then before[Key(line) := Value(line)] else before
  }

  /** The loop of generate_correction that fills `correction_dict`. */
  method ParseFields(lines: seq<string>) returns (fields: map<string, string>)
    ensures fields == Fields(lines)
  {
    fields := map[];
    var i := 0;
    while i < |lines|
      invariant 0 <= i <= |lines|
      invariant fields == Fields(lines[..i])
    {
      var line := lines[i];
      assert lines[..i + 1][..i] == lines[..i];
      if ':' in line {
        fields := fields[Key(line) := Value(line)];
      }
      i := i + 1;
    }
    assert lines[..i] == lines;
  }

  /** Every key comes from a line holding a ':'. */
  lemma {:induction false} FieldsFromLines(lines: seq<string>)
    ensures forall k :: k in Fields(lines) ==>
              exists i :: 0 <= i < |lines| && ':' in lines[i] && Key(lines[i]) == k
    decreases |lines|
  {
    if lines != [] {
      var front := lines[..|lines| - 1];
      FieldsFromLines(front);
      forall k | k in Fields(lines)
        ensures exists i :: 0 <= i < |lines| && ':' in lines[i] && Key(lines[i]) == k
      {
        var last := |lines| - 1;
        if !(':' in lines[last] && Key(lines[last]) == k) {
          assert k in Fields(front);
          var i :| 0 <= i < |front| && ':' in front[i] && Key(front[i]) == k;
          assert lines[i] == front[i];
        }
      }
    }
  }

  /** A line without ':' adds nothing; one with it sets its key. */
  lemma LineExtendsFields(lines: seq<string>, line: string)
    ensures ':' !in line ==> Fields(lines + [line]) == Fields(lines)
    ensures ':' in line ==> Fields(lines + [line]) == Fields(lines)[Key(line) := Value(line)]
  {
    assert (lines + [line])[..|lines|] == lines;
  }

  /** A key takes the value of the last line that names it. */
  lemma {:induction false} LastLineWins(lines: seq<string>, i: nat)
    requires i < |lines| && ':' in lines[i]
    requires forall j :: i < j < |lines| && ':' in lines[j] ==> Key(lines[j]) != Key(lines[i])
    ensures Key(lines[i]) in Fields(lines) && Fields(lines)[Key(lines[i])] == Value(lines[i])
    decreases |lines|
  {
    var front := lines[..|lines| - 1];
    if i < |lines| - 1 {
      assert front[i] == lines[i];
      forall j | i < j < |front| && ':' in front[j] ensures Key(front[j]) != Key(front[i]) {
        assert front[j] == lines[j];
      }
      LastLineWins(front, i);
    }
  }

  /** What generate_correction returns when the reply is not empty. */
  datatype Correction = Correction(isCorrect: bool, correctedText: string, explanation: string)

  /** The verdict is "yes" in any letter case, and an absent verdict is a
      yes; the corrected text falls back to the learner's own text and the
      explanation to the empty string. */
  function CorrectionOf(fields: map<string, string>, userText: string): (c: Correction)
    ensures "CORRECT" !in fields ==> c.isCorrect
    ensures "CORRECT" in fields ==> (c.isCorrect <==> Lower(fields["CORRECT"]) == "yes")
    ensures c.correctedText == if "CORRECTED_TEXT" in fields then fields["CORRECTED_TEXT"] else userText
    ensures c.explanation == if "EXPLANATION" in fields then fields["EXPLANATION"] else ""
  {
    var verdict := if "CORRECT" in fields then fields["CORRECT"] else "yes";
    assert Lower("yes") == "yes";
    Correction(Lower(verdict) == "yes",
               if "CORRECTED_TEXT" in fields then fields["CORRECTED_TEXT"] else userText,
               if "EXPLANATION" in fields then fields["EXPLANATION"] else "")
  }

  /** The reply's lines: the stripped reply split at newlines. */
  function ReplyLines(reply: string): seq<string> {
    SplitOn(Strip(reply), '\n')
  }

  /** generate_correction given what generate returned for its request: no
      dictionary for a missing or empty reply, otherwise the one the reply's
      lines build. */
  method GenerateCorrection(userText: string, reply: Option<string>) returns (r: Option<Correction>)
    ensures r.None? <==> reply.None? || reply.value == ""
    ensures r.Some? ==> r.value == CorrectionOf(Fields(ReplyLines(reply.value)), userText)
  {
    if reply.None? || reply.value == "" {
      return None;
    }
    var lines := SplitOn(Strip(reply.value), '\n');
    var fields := ParseFields(lines);
    r := Some(CorrectionOf(fields, userText));
  }

  /** A reply none of whose lines names CORRECT counts as correct. */
  lemma VerdictDefaultsToCorrect(userText: string, reply: string)
    requires forall i :: 0 <= i < |ReplyLines(reply)| && ':' in ReplyLines(reply)[i] ==>
               Key(ReplyLines(reply)[i]) != "CORRECT"
    ensures CorrectionOf(Fields(ReplyLines(reply)), userText).isCorrect
  {
    FieldsFromLines(ReplyLines(reply));
  }

  // ---------------------------------------------------------------- stand-in model

  const MockNameReply := "Ich heiße Otto! Und du? Wie heißt du?"
  const MockDrinkReply := "Natürlich! Möchten Sie Kaffee oder Tee?"
  const MockDefaultReply := "Interessant! Erzähl mir mehr darüber."

  /** MockLLM.generate: a question for the name is answered first, then one
      about drinks; anything else gets the default reply. */
  function MockGenerate(prompt: string): (r: string)
    ensures r == MockNameReply <==> Contains(prompt, "Wie heißt")
    ensures r == MockDrinkReply <==>
              !Contains(prompt, "Wie heißt") && (Contains(prompt, "möchten") || Contains(prompt, "trinken"))
    ensures r == MockNameReply || r == MockDrinkReply || r == MockDefaultReply
  {
    if Contains(prompt, "Wie heißt") then MockNameReply
    else if Contains(prompt, "möchten") || Contains(prompt, "trinken") then MockDrinkReply
    else MockDefaultReply
  }

  /** A prompt asking both the name and for a drink gets the name reply. */
  lemma NameQuestionComesFirst(before: string, after: string)
    ensures MockGenerate(before + "Wie heißt" + after + "trinken") == MockNameReply
  {
    assert StartsWith("Wie heißt", "Wie heißt");
    ContainsAppend("Wie heißt", after + "trinken", "Wie heißt");
    ContainsPrepend(before, "Wie heißt" + (after + "trinken"), "Wie heißt");
    assert before + ("Wie heißt" + (after + "trinken")) == before + "Wie heißt" + after + "trinken";
  }

  /** MockLLM.generate_correction: every text is accepted as it stands. */
  function MockCorrection(userText: string): (c: Correction)
    ensures c.isCorrect && c.correctedText == userText
  {
    Correction(true, userText, "Sehr gut! Das ist richtig.")
  }
}

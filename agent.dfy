/** The SMS agent: reply formatting for the SMS channel, the fixed error
    replies, the history text handed to the generator, and the order in
    which one turn records the user's message and the reply. */
module Agent {
  import opened Errors
  import opened Text
  import opened Configuration
  import opened Memory

  // ---------------------------------------------------------------------
  // Formatting a reply for SMS

  const NoResponseReply := "I'm sorry, I couldn't generate a response."
  const NoOutputReply := "I'm sorry, I couldn't process that message."

  /** How many leading sentences the loop keeps once `i` of them are kept. */
  function FitFrom(ss: seq<string>, budget: int, i: nat): (k: nat)
    requires i <= |ss|
    ensures i <= k <= |ss|
    decreases |ss| - i
  {
    if i < |ss| && |Dotted(ss[..i + 1])| <= budget then FitFrom(ss, budget, i + 1) else i
  }

  function FitCount(ss: seq<string>, budget: int): nat
  {
    FitFrom(ss, budget, 0)
  }

  /** The truncation of an over-long collapsed text: the kept sentences,
      right-stripped, or else a character cut, then the suffix. */
  function Truncated(text: string, maxLength: int, suffix: string): string {
    TruncatedBody(text, maxLength - |suffix|) + suffix
  }

  /** What the truncation keeps of the text within `budget` characters. */
  function TruncatedBody(text: string, budget: int): string {
    var sentences := Split(text, ". ");
    var kept := Dotted(sentences[..FitCount(sentences, budget)]);
    if kept != "" then StripRight(kept) else PrefixSlice(text, budget)
  }

  /** What `_format_response_for_sms` returns. */
  function SmsFormatted(response: string, maxLength: int, suffix: string): string {
    if response == "" then NoResponseReply
    else
      var text := CollapseWhitespace(response);
      if |text| <= maxLength then text else Truncated(text, maxLength, suffix)
  }

  /** `_format_response_for_sms`: collapse whitespace; if that is still too
      long, keep whole sentences while they fit in the limit less the
      suffix, or cut by characters when not even one fits. */
  method FormatResponseForSms(response: string, maxLength: int, suffix: string) returns (r: string)
    ensures r == SmsFormatted(response, maxLength, suffix)
  {
    if response == "" {
      return NoResponseReply;
    }
    var text := CollapseWhitespace(response);
    if |text| <= maxLength {
      return text;
    }
    r := Truncate(text, maxLength, suffix);
  }

  /** The truncation branch: whole sentences if at least one fits, else a
      character cut; the suffix is appended either way. */
  method Truncate(text: string, maxLength: int, suffix: string) returns (r: string)
    ensures r == Truncated(text, maxLength, suffix)
  {
    var sentences := Split(text, ". ");
    var budget := maxLength - |suffix|;
    var truncated := KeepSentences(sentences, budget);
    if truncated != "" {
      r := StripRight(truncated) + suffix;
    } else {
      r := PrefixSlice(text, budget) + suffix;
    }
  }

  /** The sentence loop: keeps leading sentences, each with `". "`, while
      the text stays within `budget`. */
  method KeepSentences(sentences: seq<string>, budget: int) returns (truncated: string)
    ensures truncated == Dotted(sentences[..FitCount(sentences, budget)])
  {
    truncated := "";
    var i := 0;
    while i < |sentences|
      invariant 0 <= i <= |sentences|
      invariant truncated == Dotted(sentences[..i])
      invariant FitFrom(sentences, budget, i) == FitCount(sentences, budget)
    {
      DottedPrefix(sentences, i + 1);
      var testText := truncated + sentences[i] + ". ";
      if |testText| <= budget {
        truncated := testText;
        i := i + 1;
      } else {
        break;
      }
    }
  }

  lemma DottedPrefix(ss: seq<string>, k: nat)
    requires 1 <= k <= |ss|
    ensures Dotted(ss[..k]) == Dotted(ss[..k - 1]) + ss[k - 1] + ". "
  {
    assert ss[..k][..k - 1] == ss[..k - 1];
  }

  /** Keeping more sentences never gives a shorter text. */
  lemma {:induction false} DottedMonotone(ss: seq<string>, j: nat, k: nat)
    requires j <= k <= |ss|
    ensures |Dotted(ss[..j])| + 2 * (k - j) <= |Dotted(ss[..k])|
    decreases k - j
  {
    if j < k {
      DottedMonotone(ss, j, k - 1);
      DottedPrefix(ss, k);
    }
  }

  lemma {:induction false} FitFromProperties(ss: seq<string>, budget: int, i: nat)
    requires i <= |ss| && |Dotted(ss[..i])| <= budget
    ensures |Dotted(ss[..FitFrom(ss, budget, i)])| <= budget
    ensures FitFrom(ss, budget, i) < |ss| ==> |Dotted(ss[..FitFrom(ss, budget, i) + 1])| > budget
    decreases |ss| - i
  {
    if i < |ss| && |Dotted(ss[..i + 1])| <= budget {
      FitFromProperties(ss, budget, i + 1);
    }
  }

  /** The kept sentences are the longest leading run, each followed by
      `". "`, that fits in the budget. */
  lemma LongestFittingRun(ss: seq<string>, budget: int)
    requires budget >= 0
    ensures |Dotted(ss[..FitCount(ss, budget)])| <= budget
    ensures forall j :: FitCount(ss, budget) < j <= |ss| ==> |Dotted(ss[..j])| > budget
  {
    var k := FitCount(ss, budget);
    assert ss[..0] == [];
    FitFromProperties(ss, budget, 0);
    forall j | k < j <= |ss| ensures |Dotted(ss[..j])| > budget {
      DottedMonotone(ss, k + 1, j);
    }
  }

  /** A reply that fits once its whitespace is collapsed is sent as that
      collapsed text; a short reply already in normal form is unchanged. */
  lemma FitsUnchanged(response: string, maxLength: int, suffix: string)
    requires response != "" && |CollapseWhitespace(response)| <= maxLength
    ensures SmsFormatted(response, maxLength, suffix) == CollapseWhitespace(response)
    ensures Collapsed(SmsFormatted(response, maxLength, suffix))
    ensures Collapsed(response) ==> SmsFormatted(response, maxLength, suffix) == response
  {
    CollapseIsCollapsed(response);
    if Collapsed(response) {
      CollapseNormalUnchanged(response);
    }
  }

  /** A truncated reply fits the limit and ends with the suffix, as long as
      the suffix itself fits. */
  lemma TruncatedFits(response: string, maxLength: int, suffix: string)
    requires response != "" && |CollapseWhitespace(response)| > maxLength
    requires |suffix| <= maxLength
    ensures |SmsFormatted(response, maxLength, suffix)| <= maxLength
    ensures var r := SmsFormatted(response, maxLength, suffix);
            |r| >= |suffix| && r[|r| - |suffix|..] == suffix
  {
    TruncatedBound(CollapseWhitespace(response), maxLength, suffix);
  }

  lemma TruncatedBound(text: string, maxLength: int, suffix: string)
    requires |suffix| <= maxLength
    ensures var r := Truncated(text, maxLength, suffix);
            |r| <= maxLength && |r| >= |suffix| && r[|r| - |suffix|..] == suffix
  {
    var body := TruncatedBody(text, maxLength - |suffix|);
    TruncatedBodyFits(text, maxLength - |suffix|);
    assert Truncated(text, maxLength, suffix) == body + suffix;
    EndsWith(body, suffix);
  }

  lemma TruncatedBodyFits(text: string, budget: int)
    requires budget >= 0
    ensures |TruncatedBody(text, budget)| <= budget
  {
    var sentences := Split(text, ". ");
    if Dotted(sentences[..FitCount(sentences, budget)]) != "" {
      KeptFits(sentences, budget);
    }
  }

  lemma KeptFits(ss: seq<string>, budget: int)
    requires budget >= 0
    ensures |Dotted(ss[..FitCount(ss, budget)])| <= budget
  {
    LongestFittingRun(ss, budget);
  }

  lemma EndsWith(body: string, suffix: string)
    ensures (body + suffix)[|body|..] == suffix
  {
  }

  /** The character cut happens exactly when not even the first sentence,
      with its `". "`, fits in the budget. */
  lemma CharacterCutOnlyWhenNoSentenceFits(response: string, maxLength: int, suffix: string)
    requires response != "" && |CollapseWhitespace(response)| > maxLength
    ensures var text := CollapseWhitespace(response);
            var sentences := Split(text, ". ");
            var budget := maxLength - |suffix|;
            SmsFormatted(response, maxLength, suffix) ==
              if |sentences[0]| + 2 <= budget
              then StripRight(Dotted(sentences[..FitCount(sentences, budget)])) + suffix
              else PrefixSlice(text, budget) + suffix
  {
    var text := CollapseWhitespace(response);
    KeptEmptyIff(Split(text, ". "), maxLength - |suffix|);
  }

  /** At least one sentence is kept exactly when the first one fits. */
  lemma KeptEmptyIff(ss: seq<string>, budget: int)
    requires ss != []
    ensures Dotted(ss[..FitCount(ss, budget)]) != "" <==> |ss[0]| + 2 <= budget
  {
    DottedPrefix(ss, 1);
    assert ss[..0] == [];
    var k := FitCount(ss, budget);
    if |ss[0]| + 2 <= budget {
      assert k >= 1;
    } else {
      assert k == 0;
    }
  }

  // ---------------------------------------------------------------------
  // Error replies and the history text

  const ProviderTrouble := "I'm having trouble with my language processing right now. Please try again in a moment."
  const ToolTrouble := "I encountered an issue while looking up information. Please try rephrasing your question."
  const TechnicalTrouble := "I'm experiencing technical difficulties. Please try again later."

  /** `_get_error_response`. */
  function GetErrorResponse(kind: ErrorKind): (r: string)
    ensures r == ProviderTrouble <==> kind == LLMProviderError
    ensures r == ToolTrouble <==> kind == AgentToolError
    ensures r == TechnicalTrouble <==> kind != LLMProviderError && kind != AgentToolError
  {
    match kind
    case LLMProviderError => ProviderTrouble
    case AgentToolError => ToolTrouble
    case _ => TechnicalTrouble
  }

  /** `_format_chat_history` on the messages, or on a failure to read them. */
  function FormatChatHistory(messages: Result<seq<ChatMessage>>): string {
    match messages
    case Err(_) => "Previous conversation unavailable."
    case Ok(ms) =>
      if ms == [] then "No previous conversation."
      else
        var lines := ContextLines(SuffixSlice(ms, -10));
        if lines == [] then "No previous conversation." else Join(lines, "\n")
  }

  /** The agent's history text is the manager's context text, except that a
      history whose last ten messages hold no human or AI message reads as
      "No previous conversation." rather than as the empty string. */
  lemma FormatChatHistoryMatchesContext(ms: seq<ChatMessage>)
    ensures FormatChatHistory(Ok(ms)) ==
              if ms != [] && KnownOnly(ms[|ms| - Min(10, |ms|)..]) == [] then "No previous conversation."
              else ContextText(ms)
  {
    if ms != [] {
      LastElements(ms, 10);
      ContextLinesKnown(ms[|ms| - Min(10, |ms|)..]);
    }
  }

  // ---------------------------------------------------------------------
  // The agent

  /** What the generator gives back: its output (when it has one), or the
      kind of error it raised. */
  datatype GenResult = Generated(output: Option<string>) | GenFailed(kind: ErrorKind)

  class SmsAgent {
    const config: Config
    const memoryManager: ConversationMemory
    const llm: LlmConfig
    /** How many tools the tool manager offers; the tools themselves are
        not part of this model. */
    const toolCount: nat

    constructor (config: Config, memoryManager: ConversationMemory, llm: LlmConfig, toolCount: nat)
      ensures this.config == config && this.memoryManager == memoryManager && this.llm == llm
      ensures this.toolCount == toolCount
    {
      this.config := config;
      this.memoryManager := memoryManager;
      this.llm := llm;
      this.toolCount := toolCount;
    }

    /** `SMSAgent(config, memory_manager)`: fails, before anything is built,
        when no provider is configured. */
    static method Create(config: Config, memoryManager: ConversationMemory, toolCount: nat) returns (r: Result<SmsAgent>)
      ensures r.Ok? <==> PrimaryLlmProvider(config).Ok?
      ensures r.Err? ==> r.error == Error(ValueError, "No LLM provider configured")
      ensures r.Ok? ==> && fresh(r.value) && r.value.config == config && r.value.memoryManager == memoryManager
                        && r.value.llm == GetLlmConfig(config).value && r.value.toolCount == toolCount
    {
      var llm := GetLlmConfig(config);
      if llm.Err? {
        return Err(llm.error);
      }
      var agent := new SmsAgent(config, memoryManager, llm.value, toolCount);
      r := Ok(agent);
    }

    /** `process_message`. The user's message is recorded first; the
        generator sees the history including it. Exactly one reply is then
        recorded: the formatted output, or on any failure the error reply,
        whose own recording failure is ignored. */
    method ProcessMessage(phone: string, message: string, generate: (string, string) -> GenResult, now: int)
      returns (reply: string)
      requires memoryManager.Valid()
      modifies memoryManager, memoryManager.store, memoryManager.Cached(phone)
      ensures memoryManager.Valid()
      ensures var afterUser := Window(old(memoryManager.View(phone, now)) + [HumanMessage(message)],
                                      memoryManager.maxConversationLength);
              memoryManager.View(phone, now) == Window(afterUser + [AIMessage(reply)], memoryManager.maxConversationLength)
      ensures SetOp in memoryManager.store.failing ==> reply == TechnicalTrouble
      ensures SetOp !in memoryManager.store.failing ==>
                var afterUser := Window(old(memoryManager.View(phone, now)) + [HumanMessage(message)],
                                        memoryManager.maxConversationLength);
                GeneratorReply(generate(message, FormatChatHistory(Ok(afterUser))), reply)
      ensures memoryManager.store.docs ==
                if SetOp in memoryManager.store.failing then old(memoryManager.DocsView(phone, now))
                else old(memoryManager.DocsView(phone, now))[phone := SavedDoc(phone, memoryManager.View(phone, now), now)]
      ensures phone in memoryManager.cache && memoryManager.cache[phone].loaded
      ensures memoryManager.cache == old(memoryManager.cache)[phone := memoryManager.cache[phone]]
      ensures phone in old(memoryManager.cache) ==> memoryManager.cache == old(memoryManager.cache)
    {
      var h := memoryManager.GetMemoryForUser(phone, now);
      reply := ProcessCachedMessage(phone, message, generate, now);
    }

    /** `process_message` once `phone` has its history in the cache: the
        user's message is saved, then answered. */
    method ProcessCachedMessage(phone: string, message: string, generate: (string, string) -> GenResult, now: int)
      returns (reply: string)
      requires memoryManager.Valid()
      requires phone in memoryManager.cache
      modifies memoryManager, memoryManager.store, memoryManager.Cached(phone)
      ensures memoryManager.Valid()
      ensures var afterUser := Window(old(memoryManager.View(phone, now)) + [HumanMessage(message)],
                                      memoryManager.maxConversationLength);
              memoryManager.View(phone, now) == Window(afterUser + [AIMessage(reply)], memoryManager.maxConversationLength)
      ensures SetOp in memoryManager.store.failing ==> reply == TechnicalTrouble
      ensures SetOp !in memoryManager.store.failing ==>
                var afterUser := Window(old(memoryManager.View(phone, now)) + [HumanMessage(message)],
                                        memoryManager.maxConversationLength);
                GeneratorReply(generate(message, FormatChatHistory(Ok(afterUser))), reply)
      ensures memoryManager.store.docs ==
                if SetOp in memoryManager.store.failing then old(memoryManager.DocsView(phone, now))
                else old(memoryManager.DocsView(phone, now))[phone := SavedDoc(phone, memoryManager.View(phone, now), now)]
      ensures phone in memoryManager.cache && memoryManager.cache[phone].loaded
      ensures memoryManager.cache == old(memoryManager.cache)
    {
      var added := memoryManager.AddUserMessage(phone, message, now);
      reply := ReplyAfterSave(phone, message, added, generate, now);
    }

    /** The state `process_message` leaves for `phone`, from the history
        `view`, documents `docs` and cache `before` it found: the user's
        message and then `reply` recorded, the store saved unless saving
        fails, and no other number's history touched. */
    ghost predicate TurnRecorded(phone: string, message: string, reply: string, generate: (string, string) -> GenResult,
                                 now: int, view: seq<ChatMessage>, docs: map<string, Doc>,
                                 before: map<string, ChatHistory>)
      reads memoryManager, memoryManager.store, memoryManager.Cached(phone)
    {
      var afterUser := Window(view + [HumanMessage(message)], memoryManager.maxConversationLength);
      && memoryManager.View(phone, now) == Window(afterUser + [AIMessage(reply)], memoryManager.maxConversationLength)
      && (SetOp in memoryManager.store.failing ==> reply == TechnicalTrouble)
      && (SetOp !in memoryManager.store.failing ==>
            GeneratorReply(generate(message, FormatChatHistory(Ok(afterUser))), reply))
      && memoryManager.store.docs ==
           (if SetOp in memoryManager.store.failing then docs
            else docs[phone := SavedDoc(phone, memoryManager.View(phone, now), now)])
      && phone in memoryManager.cache && memoryManager.cache[phone].loaded
      && memoryManager.cache == before[phone := memoryManager.cache[phone]]
      && (phone in before ==> memoryManager.cache == before)
    }

    /** The rest of `process_message` once saving the user's message has
        succeeded or failed as `added` says: a failure is answered by its
        error reply, a success by the generator's turn. */
    method ReplyAfterSave(phone: string, message: string, added: Outcome,
                          generate: (string, string) -> GenResult, now: int)
      returns (reply: string)
      requires memoryManager.Valid()
      requires phone in memoryManager.cache && memoryManager.cache[phone].loaded
      requires added.Fail? <==> SetOp in memoryManager.store.failing
      requires added.Fail? ==> added.error.kind == ConversationMemoryError
      modifies memoryManager, memoryManager.store, memoryManager.Cached(phone)
      ensures memoryManager.Valid()
      ensures memoryManager.View(phone, now) ==
                Window(old(memoryManager.View(phone, now)) + [AIMessage(reply)], memoryManager.maxConversationLength)
      ensures SetOp in memoryManager.store.failing ==> reply == TechnicalTrouble
      ensures SetOp !in memoryManager.store.failing ==>
                GeneratorReply(generate(message, FormatChatHistory(Ok(old(memoryManager.View(phone, now))))), reply)
      ensures memoryManager.store.docs ==
                if SetOp in memoryManager.store.failing then old(memoryManager.store.docs)
                else old(memoryManager.store.docs)[phone := SavedDoc(phone, memoryManager.View(phone, now), now)]
      ensures phone in memoryManager.cache && memoryManager.cache[phone].loaded
      ensures memoryManager.cache == old(memoryManager.cache)
    {
      if added.Fail? {
        reply := GetErrorResponse(added.error.kind);
        var ignored := memoryManager.AddAiMessage(phone, reply, now);
      } else {
        reply := AnswerRecorded(phone, message, generate, now);
      }
    }

    /** The reply `process_message` gives for one generator outcome once the
        user's message is saved. */
    ghost predicate GeneratorReply(outcome: GenResult, reply: string) {
      match outcome
      case GenFailed(kind) => reply == GetErrorResponse(kind)
      case Generated(output) =>
        reply == SmsFormatted(output.GetOr(NoOutputReply), config.maxSmsLength, config.messageTruncationSuffix)
    }

    /** The part of `process_message` after the user's message is saved: the
        generator's turn on the loaded history, and the one reply recorded. */
    method AnswerRecorded(phone: string, message: string, generate: (string, string) -> GenResult, now: int)
      returns (reply: string)
      requires memoryManager.Valid()
      requires phone in memoryManager.cache && memoryManager.cache[phone].loaded
      requires SetOp !in memoryManager.store.failing
      modifies memoryManager, memoryManager.store, memoryManager.Cached(phone)
      ensures memoryManager.Valid()
      ensures memoryManager.View(phone, now) ==
                Window(old(memoryManager.View(phone, now)) + [AIMessage(reply)], memoryManager.maxConversationLength)
      ensures GeneratorReply(generate(message, FormatChatHistory(Ok(old(memoryManager.View(phone, now))))), reply)
      ensures memoryManager.store.docs ==
                old(memoryManager.store.docs)[phone := SavedDoc(phone, memoryManager.View(phone, now), now)]
      ensures phone in memoryManager.cache && memoryManager.cache[phone].loaded
      ensures memoryManager.cache == old(memoryManager.cache)
    {
      var h := memoryManager.cache[phone];
      var failure: Option<ErrorKind> := None;
      var ms := h.Messages(now);
      var history := FormatChatHistory(Ok(ms));
      match generate(message, history) {
        case GenFailed(kind) =>
          failure := Some(kind);
        case Generated(output) =>
          var response := output.GetOr(NoOutputReply);
          reply := FormatResponseForSms(response, config.maxSmsLength, config.messageTruncationSuffix);
          var recorded := memoryManager.AddAiMessage(phone, reply, now);
          if recorded.Fail? {
            // a failed save raises ConversationMemoryError
            failure := Some(ConversationMemoryError);
          }
      }
      if failure.Some? {
        reply := GetErrorResponse(failure.value);
        var ignored := memoryManager.AddAiMessage(phone, reply, now);
      }
    }

    /** `clear_user_conversation`. */
    method ClearUserConversation(phone: string) returns (r: Outcome)
      requires memoryManager.Valid()
      modifies memoryManager, memoryManager.store, memoryManager.Cached(phone)
      ensures memoryManager.Valid()
      ensures phone !in old(memoryManager.cache) ==>
                r == Pass && memoryManager.cache == old(memoryManager.cache)
                && memoryManager.store.docs == old(memoryManager.store.docs)
      ensures phone in old(memoryManager.cache) ==>
                && old(memoryManager.cache[phone]).messages == [] && old(memoryManager.cache[phone]).loaded
                && (r.Pass? <==> DeleteOp !in memoryManager.store.failing)
                && memoryManager.store.docs == (if r.Pass? then old(memoryManager.store.docs) - {phone}
                                                else old(memoryManager.store.docs))
                && memoryManager.cache == (if r.Pass? then old(memoryManager.cache) - {phone}
                                           else old(memoryManager.cache))
    {
      r := memoryManager.ClearConversation(phone);
    }
  }
}

/** The SMS handler: validates the webhook's message fields, answers the
    special commands itself, hands every other text to the agent, and splits
    a reply that is too long for one SMS into at most three numbered parts
    and a continuation notice. The TwiML document is modelled as the list
    of its message texts, in order. */
module SmsHandling {
  import opened Errors
  import opened Text
  import opened Configuration
  import opened Memory
  import opened Agent

  /** The texts concatenated in order. */
  function Concat(xs: seq<string>): string
    decreases |xs|
  {
    if xs == [] then "" else xs[0] + Concat(xs[1..])
  }

  lemma {:induction false} ConcatAppend(a: seq<string>, b: seq<string>)
    ensures Concat(a + b) == Concat(a) + Concat(b)
    decreases |a|
  {
    if a == [] {
      assert a + b == b;
    } else {
      assert (a + b)[1..] == a[1..] + b;
      ConcatAppend(a[1..], b);
    }
  }

  /** Every text stripped, in order. */
  function StripAll(xs: seq<string>): (r: seq<string>)
    ensures |r| == |xs|
    decreases |xs|
  {
    if xs == [] then [] else [Strip(xs[0])] + StripAll(xs[1..])
  }

  // ---------------------------------------------------------------------
  // Splitting a long reply

  /** The sentence-packing pass before stripping: each sentence is appended
      with `". "` to the chunk being built while the result fits `size`;
      otherwise the chunk built so far (if any) is closed and the sentence
      starts a new one, even when the sentence alone is too long. */
  function PackRaw(ss: seq<string>, current: string, size: int): seq<string>
    decreases |ss|
  {
    if ss == [] then (if current != "" then [current] else [])
    else
      var test := current + ss[0] + ". ";
      if |test| <= size then PackRaw(ss[1..], test, size)
      else (if current != "" then [current] else []) + PackRaw(ss[1..], ss[0] + ". ", size)
  }

  /** Packing loses and reorders nothing: the chunks spell out the text
      being built followed by every sentence with its `". "`. */
  lemma {:induction false} PackRawText(ss: seq<string>, current: string, size: int)
    ensures Concat(PackRaw(ss, current, size)) == current + Dotted(ss)
    decreases |ss|
  {
    if ss == [] {
    } else {
      DottedCons(ss);
      var test := current + ss[0] + ". ";
      if |test| <= size {
        PackRawText(ss[1..], test, size);
      } else {
        var head: seq<string> := if current != "" then [current] else [];
        PackRawText(ss[1..], ss[0] + ". ", size);
        ConcatAppend(head, PackRaw(ss[1..], ss[0] + ". ", size));
      }
    }
  }

  lemma StripAllCons(c: string, rest: seq<string>)
    ensures StripAll([c] + rest) == [Strip(c)] + StripAll(rest)
  {
    assert ([c] + rest)[1..] == rest;
  }

  /** The chunks of `message` before stripping. */
  function RawChunks(message: string, size: int): seq<string> {
    PackRaw(Split(message, ". "), "", size)
  }

  /** Splitting at `". "` and packing gives back the whole message with an
      extra `". "` at its end, also when the message already ended in a
      full stop. */
  lemma RawChunksText(message: string, size: int)
    ensures Concat(RawChunks(message, size)) == message + ". "
  {
    var ss := Split(message, ". ");
    PackRawText(ss, "", size);
    DottedJoin(ss);
    JoinSplit(message, ". ");
  }

  /** The chunks of the sentence pass: `PackRaw` with each chunk stripped
      as it is closed. */
  function Pack(ss: seq<string>, current: string, size: int): seq<string>
    decreases |ss|
  {
    if ss == [] then (if current != "" then [Strip(current)] else [])
    else
      var test := current + ss[0] + ". ";
      if |test| <= size then Pack(ss[1..], test, size)
      else (if current != "" then [Strip(current)] else []) + Pack(ss[1..], ss[0] + ". ", size)
  }

  /** Packing at least one sentence, or a pending chunk, closes at least one chunk. */
  lemma {:induction false} PackNonEmpty(ss: seq<string>, current: string, size: int)
    requires ss != [] || current != ""
    ensures |Pack(ss, current, size)| >= 1
    decreases |ss|
  {
    if ss != [] {
      var test := current + ss[0] + ". ";
      if |test| <= size {
        PackNonEmpty(ss[1..], test, size);
      } else {
        PackNonEmpty(ss[1..], ss[0] + ". ", size);
      }
    }
  }

  /** One step of `Pack` taken at sentence `i`. */
  lemma PackAt(ss: seq<string>, i: nat, current: string, size: int)
    requires i < |ss|
    ensures var test := current + ss[i] + ". ";
            Pack(ss[i..], current, size) ==
              if |test| <= size then Pack(ss[i + 1..], test, size)
              else (if current != "" then [Strip(current)] else []) + Pack(ss[i + 1..], ss[i] + ". ", size)
  {
    assert ss[i..][1..] == ss[i + 1..];
  }

  /** Stripping each chunk as it is closed is stripping the raw chunks. */
  lemma {:induction false} PackStripsRaw(ss: seq<string>, current: string, size: int)
    ensures Pack(ss, current, size) == StripAll(PackRaw(ss, current, size))
    decreases |ss|
  {
    if ss == [] {
      if current != "" {
        StripAllCons(current, []);
      }
    } else {
      var test := current + ss[0] + ". ";
      if |test| <= size {
        PackStripsRaw(ss[1..], test, size);
      } else {
        var rest := PackRaw(ss[1..], ss[0] + ". ", size);
        PackStripsRaw(ss[1..], ss[0] + ". ", size);
        if current != "" {
          StripAllCons(current, rest);
        } else {
          assert [] + rest == rest;
        }
      }
    }
  }

  /** The sentence pass of `_create_multi_message_response`. */
  method PackSentences(sentences: seq<string>, size: int) returns (chunks: seq<string>)
    ensures chunks == Pack(sentences, "", size)
  {
    chunks := [];
    var current := "";
    for i := 0 to |sentences|
      invariant chunks + Pack(sentences[i..], current, size) == Pack(sentences, "", size)
    {
      PackAt(sentences, i, current, size);
      var test := current + sentences[i] + ". ";
      if |test| <= size {
        current := test;
      } else {
        ghost var rest := Pack(sentences[i + 1..], sentences[i] + ". ", size);
        if current != "" {
          assert chunks + ([Strip(current)] + rest) == (chunks + [Strip(current)]) + rest;
          chunks := chunks + [Strip(current)];
        } else {
          assert [] + rest == rest;
        }
        current := sentences[i] + ". ";
      }
    }
    assert sentences[|sentences|..] == [];
    if current != "" {
      chunks := chunks + [Strip(current)];
    }
  }

  /** Cutting a chunk into pieces of `size` characters while it is longer
      than `size`, then keeping the non-empty rest. */
  function CharPieces(chunk: string, size: int): seq<string>
    requires size >= 1
    decreases |chunk|
  {
    if |chunk| > size then [chunk[..size]] + CharPieces(chunk[size..], size)
    else if chunk != "" then [chunk]
    else []
  }

  lemma {:induction false} CharPiecesProperties(chunk: string, size: int)
    requires size >= 1
    ensures Concat(CharPieces(chunk, size)) == chunk
    ensures forall j :: 0 <= j < |CharPieces(chunk, size)| ==> 1 <= |CharPieces(chunk, size)[j]| <= size
    decreases |chunk|
  {
    if |chunk| > size {
      var rest := CharPieces(chunk[size..], size);
      CharPiecesProperties(chunk[size..], size);
      ConcatAppend([chunk[..size]], rest);
      assert chunk == chunk[..size] + chunk[size..];
    }
  }

  /** A chunk that fits is kept whole; a longer one is cut by characters. */
  function FinalPieces(chunk: string, size: int): seq<string>
    requires size >= 1
  {
    if |chunk| <= size then [chunk] else CharPieces(chunk, size)
  }

  /** The pieces of all chunks, in order. */
  function FlatPieces(chunks: seq<string>, size: int): seq<string>
    requires size >= 1
    decreases |chunks|
  {
    if chunks == [] then []
    else FlatPieces(chunks[..|chunks| - 1], size) + FinalPieces(chunks[|chunks| - 1], size)
  }

  /** The character pass keeps every character in order and leaves no
      piece longer than `size`. */
  lemma {:induction false} FlatPiecesProperties(chunks: seq<string>, size: int)
    requires size >= 1
    ensures Concat(FlatPieces(chunks, size)) == Concat(chunks)
    ensures forall j :: 0 <= j < |FlatPieces(chunks, size)| ==> |FlatPieces(chunks, size)[j]| <= size
    decreases |chunks|
  {
    if chunks != [] {
      var init, last := chunks[..|chunks| - 1], chunks[|chunks| - 1];
      FlatPiecesProperties(init, size);
      if |last| > size {
        CharPiecesProperties(last, size);
      }
      ConcatAppend(FlatPieces(init, size), FinalPieces(last, size));
      assert chunks == init + [last];
      ConcatAppend(init, [last]);
    }
  }

  /** The character pass of `_create_multi_message_response`. */
  method SplitLongChunks(chunks: seq<string>, size: int) returns (finals: seq<string>)
    requires size >= 1
    ensures finals == FlatPieces(chunks, size)
  {
    finals := [];
    for k := 0 to |chunks|
      invariant finals == FlatPieces(chunks[..k], size)
    {
      assert chunks[..k + 1][..k] == chunks[..k];
      var chunk := chunks[k];
      if |chunk| <= size {
        finals := finals + [chunk];
      } else {
        var pieces := CutChunk(chunk, size);
        finals := finals + pieces;
      }
    }
    assert chunks[..|chunks|] == chunks;
  }

  /** The inner loop: cut a chunk into `size`-character pieces. */
  method CutChunk(chunk: string, size: int) returns (pieces: seq<string>)
    requires size >= 1
    ensures pieces == CharPieces(chunk, size)
  {
    pieces := [];
    var rest := chunk;
    while |rest| > size
      invariant pieces + CharPieces(rest, size) == CharPieces(chunk, size)
      decreases |rest|
    {
      pieces := pieces + [rest[..size]];
      rest := rest[size..];
    }
    if rest != "" {
      pieces := pieces + [rest];
    }
  }

  /** The pieces of a long reply for a chunk budget of `size`. */
  function Pieces(message: string, size: int): seq<string>
    requires size >= 1
  {
    FlatPieces(Pack(Split(message, ". "), "", size), size)
  }

  /** The pieces spell out the stripped chunks, and the chunks before
      stripping spell out the message with an extra `". "`. */
  lemma PiecesText(message: string, size: int)
    requires size >= 1
    ensures Concat(RawChunks(message, size)) == message + ". "
    ensures Concat(Pieces(message, size)) == Concat(StripAll(RawChunks(message, size)))
  {
    RawChunksText(message, size);
    PackStripsRaw(Split(message, ". "), "", size);
    FlatPiecesProperties(Pack(Split(message, ". "), "", size), size);
  }

  // ---------------------------------------------------------------------
  // Numbering the parts

  const ContinuationNotice: string := "(Message continued... type 'more' for the rest)"

  /** `f"({i}/{total}) "`. */
  function PartIndicator(i: int, total: int): string {
    "(" + IntString(i) + "/" + IntString(total) + ") "
  }

  lemma PartIndicatorLength(i: int, total: int)
    requires 1 <= i <= 3 && 1 <= total <= 3
    ensures |PartIndicator(i, total)| == 6
  {
  }

  /** The texts of the first three pieces, each prefixed with its part
      indicator when there is more than one piece. */
  function Labelled(finals: seq<string>): (r: seq<string>)
    ensures |r| == Min(|finals|, 3)
  {
    var shown := Min(|finals|, 3);
    seq(shown, i requires 0 <= i < shown =>
      if |finals| > 1 then PartIndicator(i + 1, shown) + finals[i] else finals[i])
  }

  /** The messages of the response: the labelled parts, then the notice
      when pieces were left out. */
  function Segments(finals: seq<string>): seq<string> {
    Labelled(finals) + (if |finals| > 3 then [ContinuationNotice] else [])
  }

  /** The message loop of `_create_multi_message_response`. */
  method NumberParts(finals: seq<string>) returns (msgs: seq<string>)
    ensures msgs == Segments(finals)
  {
    var shown := Min(|finals|, 3);
    msgs := [];
    for i := 0 to shown
      invariant msgs == Labelled(finals)[..i]
    {
      var text := if |finals| > 1 then PartIndicator(i + 1, shown) + finals[i] else finals[i];
      msgs := msgs + [text];
    }
    assert Labelled(finals)[..shown] == Labelled(finals);
    if |finals| > 3 {
      msgs := msgs + [ContinuationNotice];
    }
  }

  /** At most three parts and one notice; the notice comes last and only
      when a fourth piece exists; a single piece goes out unlabelled; and
      with pieces of at most `size` characters every part fits `size + 6`. */
  lemma SegmentsProperties(finals: seq<string>, size: int)
    requires forall j :: 0 <= j < |finals| ==> |finals[j]| <= size
    ensures |Segments(finals)| == Min(|finals|, 3) + (if |finals| > 3 then 1 else 0)
    ensures |Segments(finals)| <= 4
    ensures |finals| > 3 <==> |Segments(finals)| == 4
    ensures |finals| > 3 ==> Segments(finals)[3] == ContinuationNotice
    ensures |finals| == 1 ==> Segments(finals) == finals
    ensures forall j :: 0 <= j < Min(|finals|, 3) ==>
              Segments(finals)[j] == Labelled(finals)[j] && |Segments(finals)[j]| <= size + 6
  {
    var shown := Min(|finals|, 3);
    forall j | 0 <= j < shown
      ensures |Labelled(finals)[j]| <= size + 6
    {
      if |finals| > 1 {
        PartIndicatorLength(j + 1, shown);
      }
    }
  }

  /** The message list of `_create_multi_message_response`. */
  function MultiMessage(message: string, maxSmsLength: int): seq<string>
    requires maxSmsLength > 10
  {
    Segments(Pieces(message, maxSmsLength - 10))
  }

  /** The message list of `_create_twiml_response`: the reply itself when it
      fits one SMS, otherwise its parts. */
  function TwimlMessages(message: string, maxSmsLength: int): seq<string>
    requires |message| <= maxSmsLength || maxSmsLength > 10
  {
    if |message| <= maxSmsLength then [message] else MultiMessage(message, maxSmsLength)
  }

  /** Nothing is split that fits, every message but the notice fits one SMS,
      and between one and four messages go out. */
  lemma TwimlMessagesFit(message: string, maxSmsLength: int)
    requires maxSmsLength > 10
    ensures |message| <= maxSmsLength ==> TwimlMessages(message, maxSmsLength) == [message]
    ensures 1 <= |TwimlMessages(message, maxSmsLength)|
    ensures |TwimlMessages(message, maxSmsLength)| <= 4
    ensures forall j :: 0 <= j < |TwimlMessages(message, maxSmsLength)| ==>
              TwimlMessages(message, maxSmsLength)[j] == ContinuationNotice
              || |TwimlMessages(message, maxSmsLength)[j]| <= maxSmsLength
  {
    if |message| > maxSmsLength {
      var size := maxSmsLength - 10;
      var finals := Pieces(message, size);
      var chunks := Pack(Split(message, ". "), "", size);
      FlatPiecesProperties(chunks, size);
      PackNonEmpty(Split(message, ". "), "", size);
      assert |FinalPieces(chunks[|chunks| - 1], size)| >= 1;
      SegmentsProperties(finals, size);
      var msgs := Segments(finals);
      assert TwimlMessages(message, maxSmsLength) == msgs;
      forall j | 0 <= j < |msgs|
        ensures msgs[j] == ContinuationNotice || |msgs[j]| <= maxSmsLength
      {
        if j >= Min(|finals|, 3) {
          assert |finals| > 3 && j == 3;
        }
      }
    }
  }

  // ---------------------------------------------------------------------
  // Special commands

  const HelpCommands: seq<string> := ["help", "/help", "?"]
  const ResetCommands: seq<string> := ["reset", "/reset", "clear"]
  const StatusCommands: seq<string> := ["status", "/status"]
  const InfoCommands: seq<string> := ["info", "/info"]

  /** The ten commands `_is_special_command` lists, in its order. */
  const SpecialCommands: seq<string> := HelpCommands + ResetCommands + StatusCommands + InfoCommands

  /** The message lower-cased and stripped, as the command checks compare it. */
  function CommandWord(message: string): string {
    Strip(Lower(message))
  }

  predicate IsSpecialCommand(message: string) {
    CommandWord(message) in SpecialCommands
  }

  datatype Command = Help | Reset | Status | Info | Unknown

  /** The branch of `_handle_special_command` a message takes. */
  function ClassifyCommand(message: string): Command {
    var c := CommandWord(message);
    if c in HelpCommands then Help
    else if c in ResetCommands then Reset
    else if c in StatusCommands then Status
    else if c in InfoCommands then Info
    else Unknown
  }

  /** Exactly the special commands get a command answer. */
  lemma SpecialCommandKnown(message: string)
    ensures IsSpecialCommand(message) <==> ClassifyCommand(message) != Unknown
  {
  }

  /** The notice invites the user to send "more", which is no command: it
      goes to the agent like any other text. */
  lemma {:induction false} MoreIsNoCommand()
    ensures !IsSpecialCommand("more") && ClassifyCommand("more") == Unknown
  {
    assert Lower("more") == "more";
    StripUnchanged("more");
  }

  const ResetReply: string := "Your conversation history has been cleared. Starting fresh!"
  const UnknownCommandReply: string := "Unknown command. Type 'help' for available commands."
  const EmptyMessageReply: string :=
    "I received your message but it appears to be empty. Please send me a text message and I'll be happy to help!"
  const ProcessingErrorReply: string :=
    "I'm sorry, I encountered an error processing your message. Please try again."

  function HelpMessage(agentName: string): string {
    "\U{1F916} " + agentName + " Help\n\nI can help you with:\n"
    + "\U{2022} Questions & conversations\n\U{2022} Weather information\n\U{2022} Math calculations\n"
    + "\U{2022} Current time & date\n\U{2022} General assistance\n\n"
    + "Commands:\n\U{2022} help - Show this message\n\U{2022} reset - Clear conversation\n"
    + "\U{2022} status - Check my status\n\nJust text me naturally! \U{1F60A}"
  }

  /** `.title()` of the provider's name. */
  function ProviderTitle(p: Provider): string {
    match p
    case OpenAI => "Openai"
    case Anthropic => "Anthropic"
  }

  function StatusMessage(agentName: string, provider: Provider, toolCount: nat): string {
    "\U{1F7E2} " + agentName + " Status: Online\n\nProvider: " + ProviderTitle(provider)
    + "\nTools: " + IntString(toolCount) + " available\nMemory: Active\n\nReady to help! \U{1F680}"
  }

  function InfoMessage(agentName: string): string {
    "\U{2139}\U{FE0F} " + agentName + "\n\nAI-powered SMS assistant\nPowered by LangChain\n"
    + "Conversations remembered for 24h\nSecure & private\n\nHow can I help you today?"
  }

  /** The answer to a command other than a reset. */
  function CommandReply(c: Command, agentName: string, provider: Provider, toolCount: nat): string {
    match c
    case Help => HelpMessage(agentName)
    case Reset => ResetReply
    case Status => StatusMessage(agentName, provider, toolCount)
    case Info => InfoMessage(agentName)
    case Unknown => UnknownCommandReply
  }

  // ---------------------------------------------------------------------
  // The webhook's message fields

  /** `sms_data.get(key)`, with a missing key read as the empty text: the
      handler treats both alike. */
  function Field(smsData: map<string, string>, key: string): string {
    if key in smsData then smsData[key] else ""
  }

  function Sender(smsData: map<string, string>): string {
    Field(smsData, "from_number")
  }

  /** The stripped message body. */
  function Body(smsData: map<string, string>): string {
    Strip(Field(smsData, "body"))
  }

  /** `validate_sms_data`: the three fields are present and the sender
      starts with `+`. */
  predicate ValidateSmsData(smsData: map<string, string>) {
    && "from_number" in smsData && "to_number" in smsData && "body" in smsData
    && StartsWith(smsData["from_number"], "+")
  }

  /** A message that passes validation never takes the missing-sender path. */
  lemma ValidatedHasSender(smsData: map<string, string>)
    requires ValidateSmsData(smsData)
    ensures Sender(smsData) != "" && Sender(smsData)[0] == '+'
    ensures "body" in smsData && Body(smsData) == Strip(smsData["body"])
  {
  }

  class SmsHandler {
    const config: Config
    const agent: SmsAgent

    constructor (config: Config, agent: SmsAgent)
      ensures this.config == config && this.agent == agent
    {
      this.config := config;
      this.agent := agent;
    }

    /** `_create_multi_message_response`. The source's cutting loop never
        ends when the chunk budget is not positive, hence the requirement. */
    method CreateMultiMessageResponse(message: string) returns (msgs: seq<string>)
      requires config.maxSmsLength > 10
      ensures msgs == MultiMessage(message, config.maxSmsLength)
    {
      var size := config.maxSmsLength - 10;
      var sentences := Split(message, ". ");
      var chunks := PackSentences(sentences, size);
      var finals := SplitLongChunks(chunks, size);
      msgs := NumberParts(finals);
    }

    /** `_create_twiml_response`. */
    method CreateTwimlResponse(message: string) returns (msgs: seq<string>)
      requires |message| <= config.maxSmsLength || config.maxSmsLength > 10
      ensures msgs == TwimlMessages(message, config.maxSmsLength)
    {
      if |message| > config.maxSmsLength {
        msgs := CreateMultiMessageResponse(message);
      } else {
        msgs := [message];
      }
    }

    /** `_handle_special_command`. Only a reset touches the memory; a failed
        clear comes back as the store's error. */
    method HandleSpecialCommand(message: string, phone: string) returns (r: Result<string>)
      requires agent.memoryManager.Valid()
      modifies agent.memoryManager, agent.memoryManager.store, agent.memoryManager.Cached(phone)
      ensures agent.memoryManager.Valid()
      ensures ClassifyCommand(message) != Reset ==>
                && r == Ok(CommandReply(ClassifyCommand(message), config.agentName, agent.llm.provider, agent.toolCount))
                && unchanged(agent.memoryManager, agent.memoryManager.store)
                && (phone in agent.memoryManager.cache ==> unchanged(agent.memoryManager.cache[phone]))
      ensures ClassifyCommand(message) == Reset ==>
                && (r.Ok? <==> phone !in old(agent.memoryManager.cache) || DeleteOp !in agent.memoryManager.store.failing)
                && (r.Ok? ==> r.value == ResetReply)
                && agent.memoryManager.ClearedAs(old(agent.memoryManager.cache), old(agent.memoryManager.store.docs),
                                                 phone, r.Ok?)
    {
      var c := ClassifyCommand(message);
      if c == Reset {
        var cleared := agent.ClearUserConversation(phone);
        if cleared.Fail? {
          return Err(cleared.error);
        }
        r := Ok(ResetReply);
      } else {
        r := Ok(CommandReply(c, config.agentName, agent.llm.provider, agent.toolCount));
      }
    }

    /** The reply `process_message` sends. Any failure on the way becomes
        the generic error reply. */
    method Respond(smsData: map<string, string>, generate: (string, string) -> GenResult, now: int)
      returns (reply: string)
      requires agent.memoryManager.Valid()
      modifies agent.memoryManager, agent.memoryManager.store, agent.memoryManager.Cached(Sender(smsData))
      ensures agent.memoryManager.Valid()
      ensures Sender(smsData) == "" ==>
                reply == ProcessingErrorReply && unchanged(agent.memoryManager, agent.memoryManager.store)
                && (Sender(smsData) in agent.memoryManager.cache ==> unchanged(agent.memoryManager.cache[Sender(smsData)]))
      ensures Sender(smsData) != "" && Body(smsData) == "" ==>
                reply == EmptyMessageReply && unchanged(agent.memoryManager, agent.memoryManager.store)
                && (Sender(smsData) in agent.memoryManager.cache ==> unchanged(agent.memoryManager.cache[Sender(smsData)]))
      ensures Sender(smsData) != "" && Body(smsData) != "" && IsSpecialCommand(Body(smsData))
              && ClassifyCommand(Body(smsData)) != Reset ==>
                && reply == CommandReply(ClassifyCommand(Body(smsData)), config.agentName, agent.llm.provider, agent.toolCount)
                && unchanged(agent.memoryManager, agent.memoryManager.store)
                && (Sender(smsData) in agent.memoryManager.cache ==> unchanged(agent.memoryManager.cache[Sender(smsData)]))
      ensures Sender(smsData) != "" && Body(smsData) != "" && ClassifyCommand(Body(smsData)) == Reset ==>
                && reply == (if Sender(smsData) !in old(agent.memoryManager.cache)
                                || DeleteOp !in agent.memoryManager.store.failing
                             then ResetReply else ProcessingErrorReply)
                && agent.memoryManager.ClearedAs(old(agent.memoryManager.cache), old(agent.memoryManager.store.docs),
                                                 Sender(smsData), reply == ResetReply)
      ensures Sender(smsData) != "" && Body(smsData) != "" && !IsSpecialCommand(Body(smsData)) ==>
                agent.TurnRecorded(Sender(smsData), Body(smsData), reply, generate, now,
                                   old(agent.memoryManager.View(Sender(smsData), now)),
                                   old(agent.memoryManager.DocsView(Sender(smsData), now)),
                                   old(agent.memoryManager.cache))
    {
      var phone := Sender(smsData);
      var body := Body(smsData);
      if phone == "" {
        reply := ProcessingErrorReply;
      } else if body == "" {
        reply := EmptyMessageReply;
      } else {
        reply := Answer(phone, body, generate, now);
      }
    }

    /** A message with a sender and a text: a special command is answered
        by the handler, anything else goes to the agent. */
    method Answer(phone: string, body: string, generate: (string, string) -> GenResult, now: int)
      returns (reply: string)
      requires agent.memoryManager.Valid()
      modifies agent.memoryManager, agent.memoryManager.store, agent.memoryManager.Cached(phone)
      ensures agent.memoryManager.Valid()
      ensures IsSpecialCommand(body) && ClassifyCommand(body) != Reset ==>
                && reply == CommandReply(ClassifyCommand(body), config.agentName, agent.llm.provider, agent.toolCount)
                && unchanged(agent.memoryManager, agent.memoryManager.store)
                && (phone in agent.memoryManager.cache ==> unchanged(agent.memoryManager.cache[phone]))
      ensures ClassifyCommand(body) == Reset ==>
                && reply == (if phone !in old(agent.memoryManager.cache) || DeleteOp !in agent.memoryManager.store.failing
                             then ResetReply else ProcessingErrorReply)
                && agent.memoryManager.ClearedAs(old(agent.memoryManager.cache), old(agent.memoryManager.store.docs),
                                                 phone, reply == ResetReply)
      ensures !IsSpecialCommand(body) ==>
                agent.TurnRecorded(phone, body, reply, generate, now, old(agent.memoryManager.View(phone, now)),
                                   old(agent.memoryManager.DocsView(phone, now)), old(agent.memoryManager.cache))
    {
      SpecialCommandKnown(body);
      if IsSpecialCommand(body) {
        reply := CommandAnswer(body, phone);
      } else {
        reply := agent.ProcessMessage(phone, body, generate, now);
      }
    }

    /** The command branch of `process_message`: a failed reset becomes the
        generic error reply. */
    method CommandAnswer(body: string, phone: string) returns (reply: string)
      requires agent.memoryManager.Valid()
      modifies agent.memoryManager, agent.memoryManager.store, agent.memoryManager.Cached(phone)
      ensures agent.memoryManager.Valid()
      ensures ClassifyCommand(body) != Reset ==>
                && reply == CommandReply(ClassifyCommand(body), config.agentName, agent.llm.provider, agent.toolCount)
                && unchanged(agent.memoryManager, agent.memoryManager.store)
                && (phone in agent.memoryManager.cache ==> unchanged(agent.memoryManager.cache[phone]))
      ensures ClassifyCommand(body) == Reset ==>
                && reply == (if phone !in old(agent.memoryManager.cache) || DeleteOp !in agent.memoryManager.store.failing
                             then ResetReply else ProcessingErrorReply)
                && agent.memoryManager.ClearedAs(old(agent.memoryManager.cache), old(agent.memoryManager.store.docs),
                                                 phone, reply == ResetReply)
    {
      var answer := HandleSpecialCommand(body, phone);
      reply := if answer.Ok? then answer.value else ProcessingErrorReply;
    }

    /** `process_message`: the reply and the messages of the TwiML
        response built from it. */
    method ProcessMessage(smsData: map<string, string>, generate: (string, string) -> GenResult, now: int)
      returns (reply: string, msgs: seq<string>)
      requires config.maxSmsLength > 10
      requires agent.memoryManager.Valid()
      modifies agent.memoryManager, agent.memoryManager.store, agent.memoryManager.Cached(Sender(smsData))
      ensures agent.memoryManager.Valid()
      ensures msgs == TwimlMessages(reply, config.maxSmsLength)
      ensures Sender(smsData) == "" ==>
                reply == ProcessingErrorReply && unchanged(agent.memoryManager, agent.memoryManager.store)
                && (Sender(smsData) in agent.memoryManager.cache ==> unchanged(agent.memoryManager.cache[Sender(smsData)]))
      ensures Sender(smsData) != "" && Body(smsData) == "" ==>
                reply == EmptyMessageReply && unchanged(agent.memoryManager, agent.memoryManager.store)
                && (Sender(smsData) in agent.memoryManager.cache ==> unchanged(agent.memoryManager.cache[Sender(smsData)]))
      ensures Sender(smsData) != "" && Body(smsData) != "" && IsSpecialCommand(Body(smsData))
              && ClassifyCommand(Body(smsData)) != Reset ==>
                && reply == CommandReply(ClassifyCommand(Body(smsData)), config.agentName, agent.llm.provider, agent.toolCount)
                && unchanged(agent.memoryManager, agent.memoryManager.store)
                && (Sender(smsData) in agent.memoryManager.cache ==> unchanged(agent.memoryManager.cache[Sender(smsData)]))
      ensures Sender(smsData) != "" && Body(smsData) != "" && ClassifyCommand(Body(smsData)) == Reset ==>
                && reply == (if Sender(smsData) !in old(agent.memoryManager.cache)
                                || DeleteOp !in agent.memoryManager.store.failing
                             then ResetReply else ProcessingErrorReply)
                && agent.memoryManager.ClearedAs(old(agent.memoryManager.cache), old(agent.memoryManager.store.docs),
                                                 Sender(smsData), reply == ResetReply)
      ensures Sender(smsData) != "" && Body(smsData) != "" && !IsSpecialCommand(Body(smsData)) ==>
                agent.TurnRecorded(Sender(smsData), Body(smsData), reply, generate, now,
                                   old(agent.memoryManager.View(Sender(smsData), now)),
                                   old(agent.memoryManager.DocsView(Sender(smsData), now)),
                                   old(agent.memoryManager.cache))
    {
      reply := Respond(smsData, generate, now);
      msgs := CreateTwimlResponse(reply);
    }
  }
}

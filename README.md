# Texter core in Dafny

Texter is an SMS assistant. Twilio delivers each inbound text to a webhook,
which checks the request's signature. `SecurityManager` also offers
per-sender rate limiting, but the webhook does not use it. The service
answers a few fixed commands itself and passes every other text to a
language-model agent. For each phone number it keeps a conversation history
in a Firestore collection, and it splits a reply that is too long for one
SMS into numbered parts.

This project models that path and proves properties of it. There is one
module per source file:

- `Configuration` (`config.dfy`) covers the field validators, the
  cross-field `validate()` check, production mode and provider selection.
- `Security` (`security.dfy`) covers:
  - the Twilio string-to-sign and the signature check, with HMAC-SHA1/base64
    and percent-quoting as function parameters;
  - the per-user sliding-window rate limiter, as a class over two maps of
    timestamp queues;
  - the two input sanitisers;
  - the ordering that `SecurityManager` imposes on these steps.
- `Memory` (`memory.dfy`) covers:
  - the Firestore collection, as a `Store` class holding a map of documents
    and a fixed set of failing operations;
  - the per-number `ChatHistory`, with its lazy load, expiry, window, save
    and clear;
  - the `ConversationMemory` manager with its cache of histories, context
    text, stats and cleanup.
- `Agent` (`agent.dfy`) covers:
  - SMS formatting: whitespace collapse, then sentence or character
    truncation with a suffix;
  - the error replies and the history text;
  - the order of history updates in one turn, with the language model as a
    function parameter (the generator).
- `SmsHandling` (`sms_handler.dfy`) covers:
  - the reply segmenter: sentence packing, a character pass, part numbers and
    the continuation notice;
  - command recognition and dispatch;
  - the webhook's message flow;
  - `validate_sms_data`.

Two modules are shared helpers:

- `Errors` (`errors.dfy`) holds the exception kinds and the
  `Option`/`Result`/`Outcome` wrappers.
- `Text` (`text.dfy`) holds Python's `strip`, `lower`, `upper`, `split`,
  `join`, slicing with negative indices, `str(int)` and `int(str)`, all on
  ASCII.

Time is an integer `now` in seconds, passed to each operation that reads the
clock. A Firestore server timestamp is that same `now`.

Behaviour of the source that the model keeps on purpose:

- Every sentence gets `". "` added back when a text is packed or truncated,
  the last sentence included.
  - `RawChunksText` proves that the segmenter's chunks spell out the
    message followed by an extra `". "`.
- `max_messages = 0` keeps the whole history, because `[-0:]` is the whole
  list. A negative limit drops leading messages instead.
  - See `WindowNonPositive`.
- Expiry is fixed at 24 hours. A document without `last_updated` counts as
  expired.
- `created_at` is rewritten on every save, because the save sends both
  timestamps.
- `clear_conversation` deletes the stored document only when the number is
  in the cache.
  - In the handler, a reset from a number that was never loaded leaves the
    store as it was.
- A failed read loses the history: the next save overwrites the stored
  document with the new message alone.
  - See `ReadFailureLosesHistory`.
- `sanitize_message` strips before it filters, so it is not idempotent.
  - See `SanitizeMessageNotIdempotent`.
- The phone-number validator counts every remaining character, not only
  digits.
  - See `PhoneCheckCountsAnyCharacter`.
- The continuation notice asks the user to send "more", but "more" is not a
  command. It is passed to the agent like any other text.
  - See `MoreIsNoCommand`.

## Model

| member | source | states |
|---|---|---|
| Configuration.ValidatePhoneNumber | src/config.py:71-78 | Accepts exactly the numbers that start with `+` and keep at least 10 characters once `+`, spaces and `-` are removed. An accepted number comes back unchanged. A missing `+` gives its own error. |
| Configuration.PhoneCheckCountsAnyCharacter | src/config.py:76-77 | A `+` followed by ten or more letters passes the check: every character counts towards the 10, not only digits. |
| Configuration.ValidateMaxTokens | src/config.py:87-92 | Accepts exactly 1..4000 and returns the value. |
| Configuration.ValidateLogLevel | src/config.py:94-100 | Accepted iff the upper-cased input is one of the five levels. The result is the upper-cased input. |
| Configuration.LogLevelIdempotent | src/config.py:94-100 | Validating an accepted level a second time gives the same result. |
| Configuration.Validate | src/config.py:102-115 | Passes iff some provider key is set and, outside local development, a cloud project is set. With no key at all, the failure is the provider error. |
| Configuration.ValidConfigHasProvider | src/config.py:102-130 | A configuration that passes `validate()` has a primary provider. Outside local development it is a production configuration (`is_production`). |
| Configuration.PrimaryLlmProvider | src/config.py:122-130 | Succeeds iff a key is set. OpenAI's key wins. The result is Anthropic exactly when only Anthropic's key is set. |
| Configuration.GetLlmConfig | src/config.py:132-148 | Uses the primary provider's key and model. Only OpenAI gets a temperature. Both providers use the OpenAI token limit. |
| Configuration.DefaultsPassValidators | src/config.py:26-59 | The default token limit and log level pass their own validators. |
| Security.SortedKeys | src/security.py:53-54 | `sorted(params.items())`: every form key exactly once, in strictly increasing string order. |
| Security.StringToSign | src/security.py:49-61 | The URL alone for a non-POST request or an empty form. Otherwise the URL followed by the encoded form items in key order. |
| Security.CompareDigest | src/security.py:64 | `hmac.compare_digest` on text: it raises on non-ASCII input. Otherwise it answers whether the two strings are equal. |
| Security.ValidateRequest | src/security.py:32-81 | True iff the signature header is non-empty, the comparison does not raise, and the header equals the signature of the string to sign. Headers are keyed by lower-cased name, so every spelling of the header name is found. |
| Security.SignatureHeaderKey | src/security.py:44 | The header key looked up is `X-Twilio-Signature` lower-cased. |
| Security.MissingSignatureRejected | src/security.py:43-47 | A missing or empty signature header is rejected. |
| Security.SignatureIsUnique | src/security.py:63-67 | Once a request validates, any other header value is rejected. |
| Security.StaleCount | src/security.py:160-164 | The number of leading timestamps below the cutoff. All of them are below it, and the next one is not. |
| Security.CleanOldRequests | src/security.py:160-164 | The loop removes exactly the leading timestamps older than `now - window` and keeps the rest in order. |
| Security.QueueBound | src/security.py:128-158 | In a valid limiter, no user's queue is longer than its limit. |
| Security.RateLimiter.CheckRateLimit | src/security.py:109-158 | Admitted iff the purged minute queue and the purged hour queue are both below their limits. The minute limit is checked, and reported, first. The new maps are exactly `MinuteAfter`/`HourAfter`: the user's purged minute queue, plus `now` on admission, replaces the old one. The hour queue is replaced too, unless the minute check refused. Other users' queues are untouched (`OtherUsersUntouched`). Every refusal is a `RateLimitError`. No queue ever exceeds its limit. |
| Security.RateLimiter.OtherUsersUntouched | src/security.py:125-158 | A rate-limit check for one user leaves every other user's minute and hour queues as they were. |
| Security.DefaultLimitsScenario | src/security.py:92-158 | With limits 5 and 50, calls at seconds 0, 2, 4, 6, 8, 30 and 61 give admit ×5, deny, admit. |
| Security.KeepMessageChars | src/security.py:184-185 | Keeps only characters at or above 32, and `\n`, `\r`, `\t`. |
| Security.SanitizeMessage | src/security.py:171-201 | At most 2000 characters, no other control character. The result is the first `min(n, 2000)` characters of the stripped, filtered text. |
| Security.CleanMessageUnchanged | src/security.py:171-201 | A short message with no control characters and no surrounding whitespace comes back unchanged. In particular the empty message gives the empty message. |
| Security.SanitizeMessageNotIdempotent | src/security.py:181-185 | For any control character that is not whitespace, followed by a space and a clean text `a` (for example `"\x01 a"`), sanitising gives `" " + a`. Sanitising that again gives `a`, which differs. |
| Security.SanitizePhoneNumber | src/security.py:204-221 | A non-empty number becomes its digits and `+-() ` characters, in order, stripped at both ends. So only those characters remain, there is no space at either end, and the empty number gives the empty number. |
| Security.CleanPhoneUnchanged | src/security.py:213-221 | A number made only of kept characters, with no space at either end, comes back unchanged. |
| Security.SanitizePhoneIdempotent | src/security.py:204-221 | Sanitising a phone number twice is the same as once. |
| Security.SanitizeFields | src/security.py:257-276 | Fails only on a `NumMedia` that is not an integer, as a `ValueError`. A missing `NumMedia` counts as zero. The sender and recipient are sanitised as phone numbers and the body as a message. |
| Security.SecurityManager.constructor | src/security.py:227-235 | The limiter takes its two limits from the settings and starts empty. |
| Security.SecurityManager.ValidateAndSanitizeRequest | src/security.py:237-281 | With validation enabled, a bad signature is refused with "Invalid Twilio webhook signature" before anything else, and the limiter is unchanged. Otherwise the form is sanitised. Only a non-empty sender is rate-limited. The request passes iff that sender is admitted, and the limiter's maps then change exactly as one `check_rate_limit` call changes them. |
| Memory.SerializeRoundTrip | src/memory.py:115-180 | Loading what was saved gives back the human and AI messages in order. Other messages are dropped. |
| Memory.SerializeShape | src/memory.py:159-191 | The saved list has one entry per human or AI message. Each entry has type `human`/`ai` and the save time. |
| Memory.DeserializeKnown | src/memory.py:115-128 | A load yields only human and AI messages. A list of unknown types loads as empty. |
| Memory.ExpiryBoundary | src/memory.py:207-222 | With `last_updated = t`, the conversation is expired iff `now > t + 86400` (strict). |
| Memory.ExpiryMonotone | src/memory.py:207-222 | Once expired, a conversation stays expired. |
| Memory.WindowPositive | src/memory.py:70-72 | For a limit of 1 or more: at most that many messages remain, and they are the last ones. |
| Memory.WindowNonPositive | src/memory.py:70-72 | A limit of 0 keeps everything (`[-0:]`). A negative limit drops the first `-max` messages. |
| Memory.Store.Get | src/memory.py:97 | Fails iff reads fail. Otherwise gives the document, if any. |
| Memory.Store.Set | src/memory.py:191 | Fails iff writes fail. Otherwise replaces the document. |
| Memory.Store.Delete | src/memory.py:433 | Fails iff deletes fail. Otherwise removes the document. |
| Memory.Store.QueryUpdatedBefore | src/memory.py:425-429 | Fails iff queries fail. Otherwise gives the ids whose `last_updated` is before the cutoff. |
| Memory.LoadAfterSave | src/memory.py:94-191 | A fresh load right after a save gives back the saved window's human and AI messages. |
| Memory.ReadFailureLosesHistory | src/memory.py:144-152 | After a failed read, adding a message saves a document holding only that message. |
| Memory.ChatHistory.Clear | src/memory.py:77-92 | Empties the cache and marks it loaded even when the delete fails. Fails with "Failed to clear history" iff the delete fails. |
| Memory.ChatHistory.LoadMessages | src/memory.py:94-152 | Missing document, failed read or expired document: the history is empty and loaded. An expired document is also deleted when deletes work. Otherwise the stored human and AI messages are loaded in order. |
| Memory.ChatHistory.Messages | src/memory.py:56-61 | Loads once, then returns the cache. |
| Memory.ChatHistory.SaveMessages | src/memory.py:154-205 | Writes the serialised messages with count and timestamps. Fails with "Failed to save history" iff writes fail. |
| Memory.ChatHistory.AddMessage | src/memory.py:63-75 | The cache becomes the window of the loaded history plus the message, then it is saved. |
| Memory.ContextLinesKnown | src/memory.py:344-349 | One line per human or AI message, `User: `/`Assistant: ` plus content, in order. |
| Memory.ContextWindow | src/memory.py:338-351 | Only the last 10 messages count. If none of them is human or AI, the context is empty. |
| Memory.ConversationMemory.GetMemoryForUser | src/memory.py:255-292 | Returns the cached history for a repeat call. Otherwise creates, caches and returns a new unloaded one. |
| Memory.ConversationMemory.AddUserMessage | src/memory.py:294-309 | The number's history becomes the window of the old history plus the human message. The cache gains at most this number. The store is the one the load left, with this number's document replaced by that window unless writes fail. Fails iff writes fail. |
| Memory.ConversationMemory.AddAiMessage | src/memory.py:311-326 | The same, for an AI message. |
| Memory.ConversationMemory.AddMessage | src/memory.py:294-326 | The common step of the two above, with the same cache, history and store effects. |
| Memory.ConversationMemory.GetConversationContext | src/memory.py:328-351 | Returns "No previous conversation." for an empty history. Otherwise the lines for the last 10 messages. Afterwards the phone is cached and loaded, no other cache entry changes, an entry already cached is kept as it was, and the user's history and stored documents are unchanged. |
| Memory.ConversationMemory.ClearConversation | src/memory.py:353-365 | An uncached number changes nothing. A cached one is cleared and deleted, and leaves the cache iff the delete succeeds. |
| Memory.ConversationMemory.GetConversationStats | src/memory.py:367-409 | `exists` iff the read works and the document is there, with its count and timestamps. A failed read reports an error. The method never raises. |
| Memory.ConversationMemory.CleanupExpiredConversations | src/memory.py:411-445 | Deletes exactly the documents last updated before the cutoff and returns their number. A failed query, or a failed delete when something is due, returns 0 and leaves the store unchanged. |
| Memory.ConversationMemory.DeleteExpired | src/memory.py:432-445 | One delete per expired document, and the count is their number. A failed delete reports 0, and when anything was due it fails on the first one, so the store is unchanged. |
| Agent.FormatResponseForSms | src/agent.py:265-293 | The loop computes exactly the formatting that the lemmas below describe. |
| Agent.Truncate | src/agent.py:276-291 | The truncation branch computes exactly `Truncated`: the kept sentences right-stripped, or else the character cut, then the suffix. |
| Agent.FitsUnchanged | src/agent.py:267-275 | A non-empty reply that fits once collapsed comes back collapsed. An already collapsed one comes back unchanged. |
| Agent.TruncatedFits | src/agent.py:273-291 | A truncated reply fits the limit and ends with the suffix, provided the suffix fits. |
| Agent.LongestFittingRun | src/agent.py:277-285 | The kept sentences are the longest leading run whose dotted form fits the budget. |
| Agent.CharacterCutOnlyWhenNoSentenceFits | src/agent.py:287-291 | The character cut happens exactly when the first sentence, with its `". "`, does not fit. |
| Agent.KeepSentences | src/agent.py:278-285 | The sentence loop keeps exactly the longest run of leading sentences, each followed by `". "`, that fits the budget. |
| Agent.KeptEmptyIff | src/agent.py:280-287 | The kept text is non-empty exactly when the first sentence plus `". "` fits the budget. |
| Agent.GetErrorResponse | src/agent.py:295-302 | Provider errors, tool errors and everything else map to the three fixed texts, each iff its case. |
| Agent.FormatChatHistoryMatchesContext | src/agent.py:243-263 | The history text equals the manager's context text. The one difference: when the last 10 messages hold no human or AI message, the text reads "No previous conversation." |
| Agent.SmsAgent.Create | src/agent.py:29-53 | An agent is built iff a provider is configured. It uses that provider's settings. |
| Agent.SmsAgent.ProcessMessage | src/agent.py:156-241 | The user's message is recorded first and the generator sees the history with it. Exactly one reply is then recorded. A failed save gives the technical-trouble reply. Otherwise a generator error gives its error reply, and an output gives its SMS formatting. The store is the loaded one, with this number's document replaced by the final window unless writes fail. The cache gains at most this number and no other entry changes. |
| Agent.SmsAgent.ProcessCachedMessage | src/agent.py:185-241 | The same turn, for a number already in the cache, which leaves the cache unchanged. |
| Agent.SmsAgent.ReplyAfterSave | src/agent.py:188-241 | After the user's message is saved or fails to save: a failed save is answered with its error reply. Otherwise the generator's outcome decides the reply, which is appended and saved. |
| Agent.SmsAgent.AnswerRecorded | src/agent.py:188-237 | With the user's message saved, the generator sees the loaded history, and its outcome decides the one reply appended and saved. |
| Agent.SmsAgent.ClearUserConversation | src/agent.py:314-317 | Exactly the manager's clear: an uncached number changes nothing. A cached one has its history emptied. Its document and cache entry go iff the delete works; a failed delete leaves both. |
| SmsHandling.RawChunksText | src/sms_handler.py:235-249 | The raw chunks spell out the message plus an extra `". "`. |
| SmsHandling.PackRawText | src/sms_handler.py:237-246 | Packing loses nothing and reorders nothing. |
| SmsHandling.PackSentences | src/sms_handler.py:235-249 | The loop produces exactly the packed chunks, each stripped when it is closed. |
| SmsHandling.PackStripsRaw | src/sms_handler.py:244-249 | Stripping each chunk as it is closed gives the raw chunks, each stripped. |
| SmsHandling.CharPiecesProperties | src/sms_handler.py:256-262 | The pieces of a hard-split chunk concatenate back to it, and each has 1 to `size` characters. |
| SmsHandling.FlatPiecesProperties | src/sms_handler.py:251-262 | After the character pass no piece exceeds the budget, and the pieces spell out the chunks. |
| SmsHandling.SplitLongChunks | src/sms_handler.py:251-262 | The nested loops produce exactly those pieces. |
| SmsHandling.CutChunk | src/sms_handler.py:256-262 | The inner loop cuts a chunk into exactly its `size`-character pieces and a non-empty rest. |
| SmsHandling.PiecesText | src/sms_handler.py:232-262 | The pieces spell out the stripped chunks, which come from the message plus `". "`. |
| SmsHandling.NumberParts | src/sms_handler.py:264-276 | The loop produces the labelled parts, then the notice. |
| SmsHandling.SegmentsProperties | src/sms_handler.py:264-276 | At most 3 parts, then exactly one notice iff there are more than 3 pieces. With more than one piece, part `i` is `"(i/n) "` plus piece `i`, with `n = min(count, 3)`. A single piece is unlabelled. Each part is at most 6 characters longer than its piece. |
| SmsHandling.TwimlMessagesFit | src/sms_handler.py:189-276 | A reply that fits is one unmodified message. Otherwise 1 to 4 messages, each within the SMS limit except the notice. |
| SmsHandling.PackNonEmpty | src/sms_handler.py:239-249 | Packing at least one sentence, or a pending chunk, gives at least one chunk. |
| SmsHandling.SmsHandler.CreateTwimlResponse | src/sms_handler.py:189-217 | The single message when the reply fits, else the segmented parts. |
| SmsHandling.SmsHandler.CreateMultiMessageResponse | src/sms_handler.py:219-278 | Sentence pass, character pass, numbering, with budget `max_sms_length - 10`. |
| SmsHandling.SpecialCommandKnown | src/sms_handler.py:105-134 | A message takes a command branch iff its lower-cased, stripped form is one of the ten commands. |
| SmsHandling.MoreIsNoCommand | src/sms_handler.py:108-113 | "more", which the notice invites, is not a command. |
| SmsHandling.SmsHandler.HandleSpecialCommand | src/sms_handler.py:116-187 | Help, status and info return their fixed texts and leave memory unchanged, the user's cached history object included. A reset answers "Your conversation history has been cleared. Starting fresh!" iff the clear succeeds. It leaves the cache and store exactly as the manager's clear does, failed delete included (`ClearedAs`). |
| SmsHandling.SmsHandler.Respond | src/sms_handler.py:50-103 | The reply depends on the message. A missing or empty sender gives the error reply. An empty body gives the empty-message reply. Both leave memory unchanged, the sender's cached history object included. A command gets its answer. Commands other than reset leave that history object unchanged too, and a reset has the clear's effects. Anything else goes to the agent and has the agent turn's full effect (`TurnRecorded`): the reply as the generator's outcome decides it, the history, the store and the cache. |
| SmsHandling.SmsHandler.Answer | src/sms_handler.py:72-79 | A special command gets its answer, and only a reset touches memory, with the clear's exact effects. Other commands leave the cached history object unchanged. Any other text goes to the agent, with the agent turn's exact effects on the reply, history, store and cache. |
| SmsHandling.SmsHandler.CommandAnswer | src/sms_handler.py:72-74 | A command other than reset gets its fixed text and changes no memory, the user's cached history object included. A reset gets the reset text iff the clear succeeds, else the generic error reply, with the clear's effects. |
| SmsHandling.SmsHandler.ProcessMessage | src/sms_handler.py:39-103 | The same reply and effects as `Respond`, sent as the TwiML messages for it. |
| SmsHandling.ValidatedHasSender | src/sms_handler.py:301-323 | Validated data has a sender starting with `+` and a body. Such data never takes the missing-sender path. |
| Text.JoinSplit | src/sms_handler.py:235 | Splitting at `". "` and joining back gives the text. |
| Text.DottedJoin | src/sms_handler.py:238 | Adding `". "` after every sentence is the join plus a final `". "`. |
| Text.CollapseIsCollapsed | src/agent.py:271 | `" ".join(s.split())` has no leading, trailing or doubled spaces. |
| Text.CollapseNormalUnchanged | src/agent.py:271 | An already collapsed text is unchanged. |
| Text.LastElements | src/memory.py:345 | `s[-10:]` is the last `min(10, n)` elements. |
| Text.ParseIntString | src/security.py:271 | `int(str(i)) == i`. |

## Left out

- The TwiML XML document, its escaping and the fallback response for an
  exception while building it. A response is the list of its message texts.
- HMAC-SHA1 and base64, and the percent-encoding inside `urlencode`. These
  are the function parameters `sign` and `quote`. Only the structure of the
  string to sign is modelled.
- LangChain (the agent executor, the prompt template, the buffer-window
  wrapper) and the language-model clients. The generator is a function
  parameter that returns an output or an error kind.
- `src/tools.py` is not part of this model. The tool count is a constructor
  parameter of the agent.
- Firestore client calls, `merge=True` and server timestamps. The store is a
  map that is overwritten on save, and timestamps are `now`.
- Store failures are fixed per store. Operations of one kind either all
  fail or all work, so the agent's path "user message saved, reply save
  fails" cannot arise in the model, and nor can a second reply recorded
  after it.
- `cleanup_expired_conversations` takes its cutoff from `datetime.now()`, a
  local time, and compares it with stored UTC timestamps. The model uses the
  same clock `now` for both.
- Exceptions from `get_memory_for_user` and a raising generator on the
  agent's error path are not modelled.
- `main.py`, Flask routing, logging, `asyncio.run`, request ids and the
  message SID.
- `get_agent_stats`, `get_handler_stats`, `create_error_response`,
  `get_config`, and the `get_*_config` helpers are not part of this model.
- The temperature validator (floating point), pydantic's environment
  loading, and the unused settings (`allowed_origins` and the external API
  keys).
- Unicode semantics: `strip`, `lower`, `isdigit`, `split()` and `int()` work
  on ASCII whitespace, letters and digits only. `int()` does not accept
  underscores here.
- SmsHandling.SmsHandler.CreateMultiMessageResponse: requires
  `max_sms_length > 10`, because with a chunk budget of zero or less the
  source's character loop never ends.
- SmsHandling.SmsHandler.ProcessMessage: requires `max_sms_length > 10` for
  the same reason, even though a reply that fits never reaches that loop.
- Security.Sanitize: has no contract of its own. Its properties are proved in
  `Security.SanitizeFields`.
- Security.KeepMessageChars: its contract states the length bound and the
  character class. That characters in the class are kept is proved in
  `KeepMessageCharsUnchanged`.

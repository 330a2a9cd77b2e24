/** The per-number conversation history: a document store keyed by phone
    number, a history object that lazily loads, window-truncates, saves and
    clears one number's messages, and a manager that caches one history per
    number. */
module Memory {
  import opened Errors
  import opened Text

  // ---------------------------------------------------------------------
  // Messages and their stored form

  /** A message of the chat history; `OtherMessage` stands for any message
      class other than the two the store knows. */
  datatype ChatMessage =
    | HumanMessage(content: string)
    | AIMessage(content: string)
    | OtherMessage(role: string, content: string)
  {
    predicate Known() {
      HumanMessage? || AIMessage?
    }
  }

  /** One entry of a stored document's `messages` list. */
  datatype StoredMessage = StoredMessage(kind: string, content: string, timestamp: int)

  /** A stored conversation document. */
  datatype Doc = Doc(
    phoneNumber: string,
    messages: seq<StoredMessage>,
    lastUpdated: Option<int>,
    createdAt: Option<int>,
    messageCount: int)

  /** The stored form of one message: none for a message of another kind. */
  function StoredForm(m: ChatMessage, now: int): seq<StoredMessage> {
    match m
    case HumanMessage(c) => [StoredMessage("human", c, now)]
    case AIMessage(c) => [StoredMessage("ai", c, now)]
    case OtherMessage(_, _) => []
  }

  /** The message an entry loads as: none for an unknown type. */
  function LoadedForm(s: StoredMessage): seq<ChatMessage> {
    if s.kind == "human" then [HumanMessage(s.content)]
    else if s.kind == "ai" then [AIMessage(s.content)]
    else []
  }

  /** The list `_save_messages` writes. */
  function Serialize(ms: seq<ChatMessage>, now: int): seq<StoredMessage>
    decreases |ms|
  {
    if ms == [] then [] else Serialize(ms[..|ms| - 1], now) + StoredForm(ms[|ms| - 1], now)
  }

  /** The messages `_load_messages` rebuilds from a stored list. */
  function Deserialize(ss: seq<StoredMessage>): seq<ChatMessage>
    decreases |ss|
  {
    if ss == [] then [] else Deserialize(ss[..|ss| - 1]) + LoadedForm(ss[|ss| - 1])
  }

  /** The human and AI messages of `ms`, in order. */
  function KnownOnly(ms: seq<ChatMessage>): (r: seq<ChatMessage>)
    ensures |r| <= |ms|
    ensures forall i :: 0 <= i < |r| ==> r[i].Known()
    decreases |ms|
  {
    if ms == [] then []
    else KnownOnly(ms[..|ms| - 1]) + (if ms[|ms| - 1].Known() then [ms[|ms| - 1]] else [])
  }

  lemma DeserializeSnoc(ss: seq<StoredMessage>, s: StoredMessage)
    ensures Deserialize(ss + [s]) == Deserialize(ss) + LoadedForm(s)
  {
    assert (ss + [s])[..|ss|] == ss;
  }

  /** Saving and loading gives back the human and AI messages, kinds and
      contents in order; other messages are dropped. */
  lemma {:induction false} SerializeRoundTrip(ms: seq<ChatMessage>, now: int)
    ensures Deserialize(Serialize(ms, now)) == KnownOnly(ms)
    decreases |ms|
  {
    if ms != [] {
      var init, last := ms[..|ms| - 1], ms[|ms| - 1];
      SerializeRoundTrip(init, now);
      if last.Known() {
        DeserializeSnoc(Serialize(init, now), StoredForm(last, now)[0]);
      } else {
        assert Serialize(ms, now) == Serialize(init, now);
      }
    }
  }

  /** One entry is written per human or AI message, each of a known type
      and stamped with the save time. */
  lemma {:induction false} SerializeShape(ms: seq<ChatMessage>, now: int)
    ensures |Serialize(ms, now)| == |KnownOnly(ms)|
    ensures forall i :: 0 <= i < |Serialize(ms, now)| ==>
              Serialize(ms, now)[i].kind in {"human", "ai"} && Serialize(ms, now)[i].timestamp == now
    decreases |ms|
  {
    if ms != [] {
      SerializeShape(ms[..|ms| - 1], now);
    }
  }

  /** Messages of an unknown type are skipped on load. */
  lemma {:induction false} DeserializeKnown(ss: seq<StoredMessage>)
    ensures forall i :: 0 <= i < |Deserialize(ss)| ==> Deserialize(ss)[i].Known()
    ensures (forall i :: 0 <= i < |ss| ==> ss[i].kind !in {"human", "ai"}) ==> Deserialize(ss) == []
    decreases |ss|
  {
    if ss != [] {
      DeserializeKnown(ss[..|ss| - 1]);
    }
  }

  // ---------------------------------------------------------------------
  // Expiry and the window

  const ExpirationHours := 24

  /** `_is_conversation_expired`: no `last_updated`, or more than 24 hours
      (strictly) since it. */
  predicate IsConversationExpired(doc: Doc, now: int) {
    doc.lastUpdated.None? || now - doc.lastUpdated.value > ExpirationHours * 3600
  }

  /** A document that has expired stays expired; a document updated at `t`
      is live for exactly the next 86400 seconds. */
  lemma ExpiryMonotone(doc: Doc, now: int, later: int)
    requires IsConversationExpired(doc, now) && now <= later
    ensures IsConversationExpired(doc, later)
  {
  }

  lemma ExpiryBoundary(doc: Doc, t: int, now: int)
    requires doc.lastUpdated == Some(t)
    ensures IsConversationExpired(doc, now) <==> now > t + 86400
  {
  }

  /** The cache after an append: `messages[-max:]` when it is too long.
      For `max == 0` the slice `[-0:]` keeps everything. */
  function Window<T>(s: seq<T>, max: int): seq<T> {
    if |s| > max then SuffixSlice(s, -max) else s
  }

  /** For a positive limit, the window keeps the last `max` elements. */
  lemma WindowPositive<T>(s: seq<T>, max: int)
    requires max >= 1
    ensures |Window(s, max)| <= max
    ensures Window(s, max) == s[|s| - Min(|s|, max)..]
  {
    if |s| > max {
      LastElements(s, max);
    }
  }

  /** A zero limit truncates nothing; a negative one drops `-max` leading
      elements on every append. */
  lemma WindowNonPositive<T>(s: seq<T>, max: int)
    requires max <= 0
    ensures max == 0 ==> Window(s, max) == s
    ensures max < 0 ==> Window(s, max) == s[Min(-max, |s|)..]
  {
  }

  // ---------------------------------------------------------------------
  // The document store

  datatype StoreOp = GetOp | SetOp | DeleteOp | QueryOp

  /** The text of a failed store call. */
  const StoreFailure := "document store unavailable"

  /** The document collection. The operations in `failing` raise on every call. */
  class Store {
    var docs: map<string, Doc>
    const failing: set<StoreOp>

    constructor (docs: map<string, Doc>, failing: set<StoreOp>)
      ensures this.docs == docs && this.failing == failing
    {
      this.docs := docs;
      this.failing := failing;
    }

    method Get(id: string) returns (r: Result<Option<Doc>>)
      ensures r.Err? <==> GetOp in failing
      ensures r.Ok? ==> r.value == (if id in docs then Some(docs[id]) else None)
    {
      if GetOp in failing {
        return Err(Error(ExternalAPIError, StoreFailure));
      }
      r := Ok(if id in docs then Some(docs[id]) else None);
    }

    /** `set(doc, merge=True)`; every field the model keeps is rewritten. */
    method Set(id: string, doc: Doc) returns (r: Outcome)
      modifies this
      ensures r.Fail? <==> SetOp in failing
      ensures r.Fail? ==> r.error == Error(ExternalAPIError, StoreFailure)
      ensures docs == if SetOp in failing then old(docs) else old(docs)[id := doc]
    {
      if SetOp in failing {
        return Fail(Error(ExternalAPIError, StoreFailure));
      }
      docs := docs[id := doc];
      r := Pass;
    }

    method Delete(id: string) returns (r: Outcome)
      modifies this
      ensures r.Fail? <==> DeleteOp in failing
      ensures r.Fail? ==> r.error == Error(ExternalAPIError, StoreFailure)
      ensures docs == if DeleteOp in failing then old(docs) else old(docs) - {id}
    {
      if DeleteOp in failing {
        return Fail(Error(ExternalAPIError, StoreFailure));
      }
      docs := docs - {id};
      r := Pass;
    }

    /** The query `last_updated < cutoff`: documents without the field never match. */
    method QueryUpdatedBefore(cutoff: int) returns (r: Result<set<string>>)
      ensures r.Err? <==> QueryOp in failing
      ensures r.Ok? ==> r.value == UpdatedBefore(docs, cutoff)
    {
      if QueryOp in failing {
        return Err(Error(ExternalAPIError, StoreFailure));
      }
      r := Ok(UpdatedBefore(docs, cutoff));
    }
  }

  /** Deleting one more of the expired ids. */
  lemma RemoveOneMore(docs: map<string, Doc>, expired: set<string>, remaining: set<string>, id: string)
    requires remaining <= expired && id in remaining
    ensures docs - (expired - (remaining - {id})) == (docs - (expired - remaining)) - {id}
    ensures |remaining - {id}| == |remaining| - 1
  {
    assert expired - (remaining - {id}) == (expired - remaining) + {id};
  }

  function UpdatedBefore(docs: map<string, Doc>, cutoff: int): set<string> {
    set id | id in docs && docs[id].lastUpdated.Some? && docs[id].lastUpdated.value < cutoff
  }

  /** The document `_save_messages` writes; both timestamps are the server's
      time of the write, so `created_at` is rewritten on every save. */
  function SavedDoc(phoneNumber: string, ms: seq<ChatMessage>, now: int): Doc {
    var stored := Serialize(ms, now);
    Doc(phoneNumber, stored, Some(now), Some(now), |stored|)
  }

  /** The messages a load of `id` produces: nothing when the read fails,
      the document is absent or it has expired. */
  function LoadedMessages(docs: map<string, Doc>, failing: set<StoreOp>, id: string, now: int): seq<ChatMessage> {
    if GetOp in failing || id !in docs || IsConversationExpired(docs[id], now) then []
    else Deserialize(docs[id].messages)
  }

  /** The store after a load of `id`: an expired document is deleted, when
      deletion works. */
  function LoadedDocs(docs: map<string, Doc>, failing: set<StoreOp>, id: string, now: int): map<string, Doc> {
    if GetOp !in failing && id in docs && IsConversationExpired(docs[id], now) && DeleteOp !in failing
    then docs - {id}
    else docs
  }

  /** Loading what was just saved gives back its human and AI messages
      until the document expires, then nothing. */
  lemma LoadAfterSave(docs: map<string, Doc>, failing: set<StoreOp>, id: string,
                      ms: seq<ChatMessage>, saved: int, now: int)
    requires GetOp !in failing
    ensures LoadedMessages(docs[id := SavedDoc(id, ms, saved)], failing, id, now) ==
              if now - saved > 86400 then [] else KnownOnly(ms)
  {
    SerializeRoundTrip(ms, saved);
  }

  /** A failed read starts an empty history, so the next save overwrites
      whatever the document held with the new message alone. */
  lemma ReadFailureLosesHistory(docs: map<string, Doc>, failing: set<StoreOp>, id: string,
                                m: ChatMessage, max: int, now: int)
    requires GetOp in failing && max >= 1
    ensures var ms := Window(LoadedMessages(docs, failing, id, now) + [m], max);
            SavedDoc(id, ms, now).messages == StoredForm(m, now)
  {
    assert LoadedMessages(docs, failing, id, now) + [m] == [m];
    assert [m][..0] == [];
    assert Serialize([m], now) == Serialize([], now) + StoredForm(m, now);
  }

  // ---------------------------------------------------------------------
  // One number's history

  class ChatHistory {
    const phoneNumber: string
    const maxMessages: int
    const store: Store
    var messages: seq<ChatMessage>
    var loaded: bool

    constructor (phoneNumber: string, store: Store, maxMessages: int)
      ensures this.phoneNumber == phoneNumber && this.store == store && this.maxMessages == maxMessages
      ensures messages == [] && !loaded
    {
      this.phoneNumber := phoneNumber;
      this.store := store;
      this.maxMessages := maxMessages;
      messages := [];
      loaded := false;
    }

    /** The history as the next read sees it: the cache once loaded, and
        otherwise what a load would produce now. */
    ghost function Current(now: int): seq<ChatMessage>
      reads this, store
    {
      if loaded then messages else LoadedMessages(store.docs, store.failing, phoneNumber, now)
    }

    /** The store as the next operation finds it, once any pending load has run. */
    ghost function DocsOnUse(now: int): map<string, Doc>
      reads this, store
    {
      if loaded then store.docs else LoadedDocs(store.docs, store.failing, phoneNumber, now)
    }

    /** `clear`: the cache is emptied and marked loaded before the delete,
        so it stays so when the delete fails. */
    method Clear() returns (r: Outcome)
      modifies this, store
      ensures messages == [] && loaded
      ensures store.docs == if DeleteOp in store.failing then old(store.docs) else old(store.docs) - {phoneNumber}
      ensures r.Fail? <==> DeleteOp in store.failing
      ensures r.Fail? ==> r.error == Error(ConversationMemoryError, "Failed to clear history: " + StoreFailure)
    {
      messages := [];
      loaded := true;
      var deleted := store.Delete(phoneNumber);
      if deleted.Fail? {
        return Fail(Error(ConversationMemoryError, "Failed to clear history: " + deleted.error.message));
      }
      r := Pass;
    }

    /** `_load_messages`: never fails; an expired document is cleared and
        a failed clear is swallowed. */
    method LoadMessages(now: int)
      modifies this, store
      ensures loaded
      ensures messages == LoadedMessages(old(store.docs), store.failing, phoneNumber, now)
      ensures store.docs == LoadedDocs(old(store.docs), store.failing, phoneNumber, now)
    {
      var got := store.Get(phoneNumber);
      if got.Err? || got.value.None? {
        messages := [];
        loaded := true;
        return;
      }
      var doc := got.value.value;
      if IsConversationExpired(doc, now) {
        var cleared := Clear();
        return;
      }
      var rebuilt: seq<ChatMessage> := [];
      for i := 0 to |doc.messages|
        invariant rebuilt == Deserialize(doc.messages[..i])
        invariant store.docs == old(store.docs)
      {
        assert doc.messages[..i + 1] == doc.messages[..i] + [doc.messages[i]];
        DeserializeSnoc(doc.messages[..i], doc.messages[i]);
        rebuilt := rebuilt + LoadedForm(doc.messages[i]);
      }
      assert doc.messages[..|doc.messages|] == doc.messages;
      messages := rebuilt;
      loaded := true;
    }

    /** The `messages` property. */
    method Messages(now: int) returns (ms: seq<ChatMessage>)
      modifies this, store
      ensures ms == old(Current(now)) && messages == ms && loaded
      ensures store.docs == old(DocsOnUse(now))
    {
      if !loaded {
        LoadMessages(now);
      }
      ms := messages;
    }

    /** `_save_messages`: the document holds the serialised cache and its count. */
    method SaveMessages(now: int) returns (r: Outcome)
      modifies store
      ensures r.Fail? <==> SetOp in store.failing
      ensures r.Fail? ==> r.error == Error(ConversationMemoryError, "Failed to save history: " + StoreFailure)
      ensures store.docs == if SetOp in store.failing then old(store.docs)
                            else old(store.docs)[phoneNumber := SavedDoc(phoneNumber, messages, now)]
    {
      var stored: seq<StoredMessage> := [];
      for i := 0 to |messages|
        invariant stored == Serialize(messages[..i], now)
      {
        assert messages[..i + 1][..i] == messages[..i];
        stored := stored + StoredForm(messages[i], now);
      }
      assert messages[..|messages|] == messages;
      var written := store.Set(phoneNumber, Doc(phoneNumber, stored, Some(now), Some(now), |stored|));
      if written.Fail? {
        return Fail(Error(ConversationMemoryError, "Failed to save history: " + written.error.message));
      }
      r := Pass;
    }

    /** `add_message`: load if needed, append, keep the window, save. The
        cache keeps the message even when the save fails. */
    method AddMessage(m: ChatMessage, now: int) returns (r: Outcome)
      modifies this, store
      ensures loaded && messages == Window(old(Current(now)) + [m], maxMessages)
      ensures store.docs == if SetOp in store.failing then old(DocsOnUse(now))
                            else old(DocsOnUse(now))[phoneNumber := SavedDoc(phoneNumber, messages, now)]
      ensures r.Fail? <==> SetOp in store.failing
      ensures r.Fail? ==> r.error == Error(ConversationMemoryError, "Failed to save history: " + StoreFailure)
    {
      if !loaded {
        LoadMessages(now);
      }
      messages := messages + [m];
      if |messages| > maxMessages {
        messages := SuffixSlice(messages, -maxMessages);
      }
      r := SaveMessages(now);
    }
  }

  // ---------------------------------------------------------------------
  // The per-number manager

  /** The shape of `get_conversation_stats`' dictionary. */
  datatype Stats = Stats(
    messageCount: int,
    lastUpdated: Option<int>,
    createdAt: Option<int>,
    found: bool,
    error: Option<string>)

  /** One context line per human or AI message. */
  function ContextLine(m: ChatMessage): seq<string> {
    match m
    case HumanMessage(c) => ["User: " + c]
    case AIMessage(c) => ["Assistant: " + c]
    case OtherMessage(_, _) => []
  }

  function ContextLines(ms: seq<ChatMessage>): seq<string>
    decreases |ms|
  {
    if ms == [] then [] else ContextLines(ms[..|ms| - 1]) + ContextLine(ms[|ms| - 1])
  }

  /** What `get_conversation_context` returns for a history. */
  function ContextText(ms: seq<ChatMessage>): string {
    if ms == [] then "No previous conversation."
    else Join(ContextLines(SuffixSlice(ms, -10)), "\n")
  }

  function Label(m: ChatMessage): string
    requires m.Known()
  {
    if m.HumanMessage? then "User: " + m.content else "Assistant: " + m.content
  }

  /** The context has one line per human or AI message, labelled by its
      sender, in order. */
  lemma {:induction false} ContextLinesKnown(ms: seq<ChatMessage>)
    ensures |ContextLines(ms)| == |KnownOnly(ms)|
    ensures forall i :: 0 <= i < |ContextLines(ms)| ==> ContextLines(ms)[i] == Label(KnownOnly(ms)[i])
    decreases |ms|
  {
    if ms != [] {
      ContextLinesKnown(ms[..|ms| - 1]);
    }
  }

  /** Only the last ten messages reach the context, and a history with
      nothing but other messages gives the empty context. */
  lemma ContextWindow(ms: seq<ChatMessage>)
    requires ms != []
    ensures ContextText(ms) == Join(ContextLines(ms[|ms| - Min(10, |ms|)..]), "\n")
    ensures KnownOnly(ms[|ms| - Min(10, |ms|)..]) == [] ==> ContextText(ms) == ""
  {
    LastElements(ms, 10);
    ContextLinesKnown(ms[|ms| - Min(10, |ms|)..]);
  }

  class ConversationMemory {
    const store: Store
    const maxConversationLength: int
    var cache: map<string, ChatHistory>

    /** Each cached history belongs to its own number and shares one store
        and one limit. */
    ghost predicate Valid()
      reads this
    {
      forall p :: p in cache ==>
        cache[p].phoneNumber == p && cache[p].store == store && cache[p].maxMessages == maxConversationLength
    }

    constructor (store: Store, maxConversationLength: int)
      ensures Valid() && this.store == store && this.maxConversationLength == maxConversationLength
      ensures cache == map[]
    {
      this.store := store;
      this.maxConversationLength := maxConversationLength;
      cache := map[];
    }

    /** The cached history of `phone` and its store, if any, as a frame. */
    function Cached(phone: string): set<object>
      reads this
    {
      if phone in cache then {cache[phone], cache[phone].store} else {}
    }

    /** The history of `phone` as the next read sees it. */
    ghost function View(phone: string, now: int): seq<ChatMessage>
      reads this, store, Cached(phone)
    {
      if phone in cache then cache[phone].Current(now)
      else LoadedMessages(store.docs, store.failing, phone, now)
    }

    /** The store as the next operation on `phone` finds it. */
    ghost function DocsView(phone: string, now: int): map<string, Doc>
      reads this, store, Cached(phone)
    {
      if phone in cache then cache[phone].DocsOnUse(now)
      else LoadedDocs(store.docs, store.failing, phone, now)
    }

    /** `get_memory_for_user`: the cached history on a repeat call, a new
        unloaded one otherwise. */
    method GetMemoryForUser(phone: string, ghost now: int) returns (h: ChatHistory)
      requires Valid()
      modifies this
      ensures Valid()
      ensures h.phoneNumber == phone && h.store == store && h.maxMessages == maxConversationLength
      ensures phone in old(cache) ==> h == old(cache[phone]) && cache == old(cache)
      ensures phone !in old(cache) ==> fresh(h) && h.messages == [] && !h.loaded && cache == old(cache)[phone := h]
      ensures View(phone, now) == old(View(phone, now)) && DocsView(phone, now) == old(DocsView(phone, now))
    {
      if phone in cache {
        return cache[phone];
      }
      h := new ChatHistory(phone, store, maxConversationLength);
      cache := cache[phone := h];
    }

    /** Appends `m` to the history of `phone` through its cached history. */
    method AddMessage(phone: string, m: ChatMessage, now: int) returns (r: Outcome)
      requires Valid()
      modifies this, store, Cached(phone)
      ensures Valid()
      ensures phone in cache && cache[phone].loaded
      ensures cache == old(cache)[phone := cache[phone]]
      ensures phone in old(cache) ==> cache == old(cache)
      ensures View(phone, now) == Window(old(View(phone, now)) + [m], maxConversationLength)
      ensures store.docs == if SetOp in store.failing then old(DocsView(phone, now))
                            else old(DocsView(phone, now))[phone := SavedDoc(phone, View(phone, now), now)]
      ensures r.Fail? <==> SetOp in store.failing
      ensures r.Fail? ==> r.error == Error(ConversationMemoryError, "Failed to save history: " + StoreFailure)
    {
      var h := GetMemoryForUser(phone, now);
      r := h.AddMessage(m, now);
    }

    /** `add_user_message`. */
    method AddUserMessage(phone: string, content: string, now: int) returns (r: Outcome)
      requires Valid()
      modifies this, store, Cached(phone)
      ensures Valid()
      ensures phone in cache && cache[phone].loaded
      ensures cache == old(cache)[phone := cache[phone]]
      ensures phone in old(cache) ==> cache == old(cache)
      ensures View(phone, now) == Window(old(View(phone, now)) + [HumanMessage(content)], maxConversationLength)
      ensures store.docs == if SetOp in store.failing then old(DocsView(phone, now))
                            else old(DocsView(phone, now))[phone := SavedDoc(phone, View(phone, now), now)]
      ensures r.Fail? <==> SetOp in store.failing
      ensures r.Fail? ==> r.error == Error(ConversationMemoryError, "Failed to save history: " + StoreFailure)
    {
      r := AddMessage(phone, HumanMessage(content), now);
    }

    /** `add_ai_message`. */
    method AddAiMessage(phone: string, content: string, now: int) returns (r: Outcome)
      requires Valid()
      modifies this, store, Cached(phone)
      ensures Valid()
      ensures phone in cache && cache[phone].loaded
      ensures cache == old(cache)[phone := cache[phone]]
      ensures phone in old(cache) ==> cache == old(cache)
      ensures View(phone, now) == Window(old(View(phone, now)) + [AIMessage(content)], maxConversationLength)
      ensures store.docs == if SetOp in store.failing then old(DocsView(phone, now))
                            else old(DocsView(phone, now))[phone := SavedDoc(phone, View(phone, now), now)]
      ensures r.Fail? <==> SetOp in store.failing
      ensures r.Fail? ==> r.error == Error(ConversationMemoryError, "Failed to save history: " + StoreFailure)
    {
      r := AddMessage(phone, AIMessage(content), now);
    }

    /** `get_conversation_context`, which loads the history if needed. */
    method GetConversationContext(phone: string, now: int) returns (text: string)
      requires Valid()
      modifies this, store, Cached(phone)
      ensures Valid()
      ensures text == ContextText(old(View(phone, now)))
      ensures store.docs == old(DocsView(phone, now))
      ensures phone in cache && cache[phone].loaded
      ensures cache == old(cache)[phone := cache[phone]]
      ensures phone in old(cache) ==> cache == old(cache)
      ensures View(phone, now) == old(View(phone, now))
    {
      var h := GetMemoryForUser(phone, now);
      var ms := h.Messages(now);
      if ms == [] {
        return "No previous conversation.";
      }
      text := Join(ContextLines(SuffixSlice(ms, -10)), "\n");
    }

    /** `clear_conversation`: only a cached number's document is deleted.
        A failed delete leaves the number cached, with an empty history. */
    method ClearConversation(phone: string) returns (r: Outcome)
      requires Valid()
      modifies this, store, Cached(phone)
      ensures Valid()
      ensures phone !in old(cache) ==> r == Pass && cache == old(cache) && store.docs == old(store.docs)
      ensures phone in old(cache) ==>
                && old(cache[phone]).messages == [] && old(cache[phone]).loaded
                && (r.Pass? <==> DeleteOp !in store.failing)
                && store.docs == (if r.Pass? then old(store.docs) - {phone} else old(store.docs))
                && cache == (if r.Pass? then old(cache) - {phone} else old(cache))
    {
      if phone in cache {
        var h := cache[phone];
        r := h.Clear();
        if r.Pass? {
          cache := cache - {phone};
        }
      } else {
        r := Pass;
      }
    }

    /** The state `clear_conversation` leaves for `phone`, from the cache
        `before` and documents `docs` it found; `cleared` says whether it
        reported success. */
    ghost predicate ClearedAs(before: map<string, ChatHistory>, docs: map<string, Doc>, phone: string, cleared: bool)
      reads this, store, if phone in before then {before[phone]} else {}
    {
      if phone !in before then cleared && cache == before && store.docs == docs
      else
        && before[phone].messages == [] && before[phone].loaded
        && (cleared <==> DeleteOp !in store.failing)
        && store.docs == (if cleared then docs - {phone} else docs)
        && cache == (if cleared then before - {phone} else before)
    }

    /** `get_conversation_stats`: read-only; a failed read reports the error. */
    method GetConversationStats(phone: string) returns (s: Stats)
      ensures s.found <==> GetOp !in store.failing && phone in store.docs
      ensures s.error.Some? <==> GetOp in store.failing
      ensures s.found ==> && s.messageCount == store.docs[phone].messageCount
                           && s.lastUpdated == store.docs[phone].lastUpdated
                           && s.createdAt == store.docs[phone].createdAt
      ensures !s.found ==> s.messageCount == 0 && s.lastUpdated.None? && s.createdAt.None?
    {
      var got := store.Get(phone);
      if got.Err? {
        return Stats(0, None, None, false, Some(got.error.message));
      }
      match got.value
      case Some(doc) => s := Stats(doc.messageCount, doc.lastUpdated, doc.createdAt, true, None);
      case None => s := Stats(0, None, None, false, None);
    }

    /** `cleanup_expired_conversations`: deletes every document updated
        before `now - hours` and counts them; any failure reports 0. */
    method CleanupExpiredConversations(hours: int, now: int) returns (count: int)
      modifies store
      ensures var expired := UpdatedBefore(old(store.docs), now - hours * 3600);
              if QueryOp in store.failing || (DeleteOp in store.failing && expired != {}) then
                count == 0 && store.docs == old(store.docs)
              else
                count == |expired| && store.docs == old(store.docs) - expired
    {
      var found := store.QueryUpdatedBefore(now - hours * 3600);
      if found.Err? {
        return 0;
      }
      count := DeleteExpired(found.value);
    }

    /** The delete loop of `cleanup_expired_conversations`: one delete per
        expired document; a failed delete reports 0. */
    method DeleteExpired(expired: set<string>) returns (count: int)
      modifies store
      ensures if DeleteOp in store.failing && expired != {} then
                count == 0 && store.docs == old(store.docs)
              else
                count == |expired| && store.docs == old(store.docs) - expired
    {
      var remaining := expired;
      count := 0;
      while remaining != {}
        invariant remaining <= expired
        invariant count == |expired| - |remaining|
        invariant store.docs == old(store.docs) - (expired - remaining)
        invariant remaining != expired ==> DeleteOp !in store.failing
        decreases |remaining|
      {
        var id :| id in remaining;
        RemoveOneMore(old(store.docs), expired, remaining, id);
        var deleted := store.Delete(id);
        if deleted.Fail? {
          return 0;
        }
        remaining := remaining - {id};
        count := count + 1;
      }
    }
  }
}

/**
 * The conversation manager of `src/services/ollamaService.ts`.
 *
 * `OllamaService` keeps a `Map` from conversation id to conversation. The
 * HTTP calls to the Ollama server are not modelled: the reply of
 * `generateChatResponse` is a parameter (`Ok(text)`, or `Err(message)` when
 * the call throws), the chunks yielded by `streamChatResponse` are a
 * parameter, and so are the parsed progress lines of `pullModel`.
 * `Date.now()` and `new Date()` are the parameter `now`.
 */
module Ollama {
  import opened Strings
  import opened MapOrder

  datatype Role = UserRole | AssistantRole | SystemRole

  datatype OllamaMessage = OllamaMessage(role: Role, content: string)

  datatype Conversation = Conversation(
    id: string,
    title: string,
    messages: seq<OllamaMessage>,
    model: string,
    createdAt: nat,
    updatedAt: nat)

  const DefaultModel: string := "llama3"
  const DefaultTitle: string := "New Conversation"

  // ---------------------------------------------------------------------------
  // Model names
  // ---------------------------------------------------------------------------

  /** `normalizeModelName`: a tagged name is kept, an untagged one gets ":latest". */
  function NormalizeModelName(model: string): string {
    if Contains(model, ":latest") then model
    else if Contains(model, ":") then model
    else model + ":latest"
  }

  /** The first test is subsumed by the second: the result depends only on whether ':' occurs. */
  lemma NormalizeByColon(model: string)
    ensures ':' in model ==> NormalizeModelName(model) == model
    ensures ':' !in model ==> NormalizeModelName(model) == model + ":latest"
  {
    ContainsChar(model, ':');
    if Contains(model, ":latest") {
      assert OccursAt(":latest", ":", 0);
      ContainsAt(":latest", ":", 0);
      ContainsTransitive(model, ":latest", ":");
    }
  }

  lemma NormalizeHasColon(model: string)
    ensures ':' in NormalizeModelName(model)
  {
    NormalizeByColon(model);
    if ':' !in model {
      assert (model + ":latest")[|model|] == ':';
    }
  }

  lemma NormalizeIdempotent(model: string)
    ensures NormalizeModelName(NormalizeModelName(model)) == NormalizeModelName(model)
  {
    NormalizeHasColon(model);
    NormalizeByColon(NormalizeModelName(model));
  }

  // ---------------------------------------------------------------------------
  // Stream lines
  // ---------------------------------------------------------------------------

  /** `Array.prototype.filter` on lines: the lines `keep` accepts, in order. */
  function Filter(lines: seq<string>, keep: string -> bool): (r: seq<string>)
    ensures |r| <= |lines|
    ensures forall k :: 0 <= k < |r| ==> keep(r[k]) && r[k] in lines
  {
    if lines == [] then []
    else (if keep(lines[0]) then [lines[0]] else []) + Filter(lines[1..], keep)
  }

  /** Filtering works line by line: it keeps the order of the kept lines. */
  lemma {:induction false} FilterDistributes(a: seq<string>, b: seq<string>, keep: string -> bool)
    ensures Filter(a + b, keep) == Filter(a, keep) + Filter(b, keep)
  {
    if a != [] {
      assert (a + b)[0] == a[0] && (a + b)[1..] == a[1..] + b;
      FilterDistributes(a[1..], b, keep);
    } else {
      assert a + b == b;
    }
  }

  /** Every accepted line is kept. */
  lemma {:induction false} FilterKeepsEvery(lines: seq<string>, keep: string -> bool)
    ensures forall k :: 0 <= k < |lines| && keep(lines[k]) ==> lines[k] in Filter(lines, keep)
  {
    if lines != [] {
      var rest := lines[1..];
      FilterKeepsEvery(rest, keep);
      forall k | 1 <= k < |lines| ensures lines[k] == rest[k - 1] {
      }
    }
  }

  /** A list whose every line is accepted passes unchanged. */
  lemma {:induction false} FilterKeepsAll(lines: seq<string>, keep: string -> bool)
    requires forall k :: 0 <= k < |lines| ==> keep(lines[k])
    ensures Filter(lines, keep) == lines
  {
    if lines != [] {
      FilterKeepsAll(lines[1..], keep);
    }
  }

  /** The stream's test `line.trim() !== ''`. */
  predicate KeptLine(line: string) {
    !IsBlank(line)
  }

  /** `.filter(line => line.trim() !== '')`. */
  function NonBlank(lines: seq<string>): (r: seq<string>)
    ensures |r| <= |lines|
    ensures forall k :: 0 <= k < |r| ==> !IsBlank(r[k]) && r[k] in lines
  {
    Filter(lines, KeptLine)
  }

  /** Every non-blank line is kept. */
  lemma NonBlankKeepsEvery(lines: seq<string>)
    ensures forall k :: 0 <= k < |lines| && !IsBlank(lines[k]) ==> lines[k] in NonBlank(lines)
  {
    FilterKeepsEvery(lines, KeptLine);
  }

  /** The kept lines stay in input order: the filter distributes over concatenation. */
  lemma NonBlankDistributes(a: seq<string>, b: seq<string>)
    ensures NonBlank(a + b) == NonBlank(a) + NonBlank(b)
  {
    FilterDistributes(a, b, KeptLine);
  }

  /** `chunk.split('\n').filter(line => line.trim() !== '')`. */
  function SplitLines(chunk: string): seq<string> {
    NonBlank(Split(chunk, '\n'))
  }

  lemma LinesAreNonBlankAndSingle(chunk: string)
    ensures forall k :: 0 <= k < |SplitLines(chunk)| ==> !IsBlank(SplitLines(chunk)[k]) && '\n' !in SplitLines(chunk)[k]
  {
  }

  lemma NonBlankKeepsClean(lines: seq<string>)
    requires forall k :: 0 <= k < |lines| ==> !IsBlank(lines[k])
    ensures NonBlank(lines) == lines
  {
    FilterKeepsAll(lines, KeptLine);
  }

  /** When no line of a chunk is blank, the lines joined back with '\n' are the chunk itself. */
  lemma CleanChunkRoundTrip(chunk: string)
    requires forall k :: 0 <= k < |Split(chunk, '\n')| ==> !IsBlank(Split(chunk, '\n')[k])
    ensures Join(SplitLines(chunk), '\n') == chunk
  {
    NonBlankKeepsClean(Split(chunk, '\n'));
    JoinSplit(chunk, '\n');
  }

  /** The statuses handed to `onProgress`: the lines that parsed, in order. */
  function Parsed(lines: seq<Option<string>>): (r: seq<string>)
    ensures |r| <= |lines|
  {
    if lines == [] then []
    else Parsed(lines[..|lines| - 1]) + (if lines[|lines| - 1].Some? then [lines[|lines| - 1].value] else [])
  }

  lemma {:induction false} ParsedHasSuccess(lines: seq<Option<string>>)
    ensures "success" in Parsed(lines) <==> Some("success") in lines
  {
    if lines != [] {
      ParsedHasSuccess(lines[..|lines| - 1]);
      assert lines == lines[..|lines| - 1] + [lines[|lines| - 1]];
    }
  }

  /**
   * The loop of `pullModel` over the progress lines (`None` for a line that
   * failed to parse): report each parsed status and succeed iff one of them
   * is "success". `failure` is the error of a response that is not ok;
   * `hasCallback` says whether the optional `onProgress` was given, and
   * `progress` is the calls it receives.
   */
  method PullModel(failure: Option<string>, lines: seq<Option<string>>, hasCallback: bool) returns (r: Result<bool>, progress: seq<string>)
    ensures failure.Some? ==> r == Err(failure.value) && progress == []
    ensures failure.None? ==> r.Ok? && (r.value <==> Some("success") in lines)
    ensures failure.None? && hasCallback ==> progress == Parsed(lines)
    ensures !hasCallback ==> progress == []
  {
    if failure.Some? {
      return Err(failure.value), [];
    }
    var success := false;
    progress := [];
    var i := 0;
    while i < |lines|
      invariant 0 <= i <= |lines|
      invariant progress == (if hasCallback then Parsed(lines[..i]) else [])
      invariant success <==> Some("success") in lines[..i]
    {
      assert lines[..i + 1][..i] == lines[..i];
      assert lines[..i + 1] == lines[..i] + [lines[i]];
      if lines[i].Some? {
        if hasCallback {
          progress := progress + [lines[i].value];
        }
        if lines[i].value == "success" {
          success := true;
        }
      }
      i := i + 1;
    }
    assert lines[..i] == lines;
    r := Ok(success);
  }

  // ---------------------------------------------------------------------------
  // Conversations
  // ---------------------------------------------------------------------------

  /** The `conversations` Map: its keys in insertion order, and the values. */
  datatype Store = Store(order: seq<string>, conversations: map<string, Conversation>)

  ghost predicate WellFormed(st: Store) {
    Distinct(st.order) && (forall k :: k in st.order <==> k in st.conversations)
  }

  /** `conversations.set(id, c)`. */
  function Put(st: Store, id: string, c: Conversation): Store {
    Store(SetKey(st.order, id), st.conversations[id := c])
  }

  /** `Array.from(conversations.values())`. */
  function ValuesInOrder(order: seq<string>, conversations: map<string, Conversation>): (r: seq<Conversation>)
    requires forall k :: k in order ==> k in conversations
    ensures |r| == |order|
    ensures forall i :: 0 <= i < |order| ==> r[i] == conversations[order[i]]
  {
    if order == [] then []
    else ValuesInOrder(order[..|order| - 1], conversations) + [conversations[order[|order| - 1]]]
  }

  function GetAllConversations(st: Store): seq<Conversation>
    requires WellFormed(st)
  {
    ValuesInOrder(st.order, st.conversations)
  }

  function GetConversation(st: Store, id: string): Option<Conversation> {
    if id in st.conversations then Some(st.conversations[id]) else None
  }

  /** The history a new conversation starts with: the system prompt, when one is given and non-empty. */
  function InitialHistory(systemPrompt: Option<string>): seq<OllamaMessage> {
    if systemPrompt.Some? && systemPrompt.value != "" then [OllamaMessage(SystemRole, systemPrompt.value)] else []
  }

  /**
   * `createConversation(title, systemPrompt, model)`; an omitted argument is
   * `None` and takes its default. The id is `Date.now().toString()`.
   */
  function Create(st: Store, title: Option<string>, systemPrompt: Option<string>, model: Option<string>, now: nat): (Store, string) {
    var id := NatToString(now);
    var c := Conversation(id, if title.Some? then title.value else DefaultTitle, InitialHistory(systemPrompt),
                          NormalizeModelName(if model.Some? then model.value else DefaultModel), now, now);
    (Put(st, id, c), id)
  }

  function NotFound(id: string): string {
    "Conversation with ID " + id + " not found"
  }

  /**
   * `sendMessage(id, content)`: the user message is pushed before the
   * backend call; a successful reply is pushed after it.
   */
  function Send(st: Store, id: string, content: string, reply: Result<string>, now: nat): (Store, Result<string>) {
    if id !in st.conversations then (st, Err(NotFound(id)))
    else
      var c := st.conversations[id];
      var withUser := c.(messages := c.messages + [OllamaMessage(UserRole, content)]);
      match reply
      case Err(e) => (Put(st, id, withUser), Err(e))
      case Ok(text) =>
        (Put(st, id, withUser.(messages := withUser.messages + [OllamaMessage(AssistantRole, text)], updatedAt := now)), Ok(text))
  }

  /** The concatenation of the chunks in order. */
  function Concat(chunks: seq<string>): string {
    if chunks == [] then "" else Concat(chunks[..|chunks| - 1]) + chunks[|chunks| - 1]
  }

  /**
   * `streamMessage(id, content)`: every chunk is yielded; when the stream
   * ends normally the assistant message is their concatenation; when it
   * throws (`failure`) after the chunks, only the user message stays.
   */
  function Stream(st: Store, id: string, content: string, chunks: seq<string>, failure: Option<string>, now: nat): (Store, Result<string>) {
    if id !in st.conversations then (st, Err(NotFound(id)))
    else
      var c := st.conversations[id];
      var withUser := c.(messages := c.messages + [OllamaMessage(UserRole, content)]);
      if failure.Some? then (Put(st, id, withUser), Err(failure.value))
      else
        var full := Concat(chunks);
        (Put(st, id, withUser.(messages := withUser.messages + [OllamaMessage(AssistantRole, full)], updatedAt := now)), Ok(full))
  }

  /** The history `clearConversation` leaves. */
  function Cleared(messages: seq<OllamaMessage>, keepSystemPrompt: bool): seq<OllamaMessage> {
    if keepSystemPrompt && |messages| > 0 && messages[0].role == SystemRole then [messages[0]] else []
  }

  function Clear(st: Store, id: string, keepSystemPrompt: bool, now: nat): (Store, bool) {
    if id !in st.conversations then (st, false)
    else
      var c := st.conversations[id];
      (Put(st, id, c.(messages := Cleared(c.messages, keepSystemPrompt), updatedAt := now)), true)
  }

  function Delete(st: Store, id: string): (Store, bool) {
    (Store(DeleteKey(st.order, id), st.conversations - {id}), id in st.conversations)
  }

  // ---------------------------------------------------------------------------
  // Properties
  // ---------------------------------------------------------------------------

  lemma OperationsPreserveWellFormed(st: Store, id: string, c: Conversation)
    requires WellFormed(st)
    ensures WellFormed(Put(st, id, c))
    ensures WellFormed(Delete(st, id).0)
  {
    SetKeyDistinct(st.order, id);
    DeleteKeyDistinct(st.order, id);
  }

  /**
   * A created conversation is found under the returned id, with the system
   * prompt as its only message when one is given (else no message) and the
   * model normalised.
   */
  lemma CreateThenGet(st: Store, title: Option<string>, systemPrompt: Option<string>, model: Option<string>, now: nat)
    ensures var (st', id) := Create(st, title, systemPrompt, model, now);
      var m := if model.Some? then model.value else DefaultModel;
      && id == NatToString(now)
      && GetConversation(st', id).Some?
      && GetConversation(st', id).value.id == id
      && GetConversation(st', id).value.model == NormalizeModelName(m)
      && (systemPrompt.Some? && systemPrompt.value != "" ==>
            GetConversation(st', id).value.messages == [OllamaMessage(SystemRole, systemPrompt.value)])
      && (systemPrompt.None? || systemPrompt.value == "" ==> GetConversation(st', id).value.messages == [])
      && ':' in GetConversation(st', id).value.model
      && (forall k :: k != id ==> GetConversation(st', k) == GetConversation(st, k))
  {
    NormalizeHasColon(if model.Some? then model.value else DefaultModel);
  }

  /** Sending or streaming to an unknown id throws and changes nothing. */
  lemma UnknownIdChangesNothing(st: Store, id: string, content: string, reply: Result<string>, chunks: seq<string>,
                                failure: Option<string>, now: nat)
    requires id !in st.conversations
    ensures Send(st, id, content, reply, now) == (st, Err(NotFound(id)))
    ensures Stream(st, id, content, chunks, failure, now) == (st, Err(NotFound(id)))
    ensures Clear(st, id, true, now) == (st, false) && Clear(st, id, false, now) == (st, false)
  {
  }

  /**
   * A successful send grows the history by exactly two: the user message,
   * then the reply. A failed backend call leaves the user message in place.
   */
  lemma SendAppendsTwo(st: Store, id: string, content: string, reply: Result<string>, now: nat)
    requires WellFormed(st) && id in st.conversations
    ensures var (st', r) := Send(st, id, content, reply, now);
      var before := st.conversations[id].messages;
      && id in st'.conversations
      && r == reply
      && (reply.Ok? ==>
            st'.conversations[id].messages ==
            before + [OllamaMessage(UserRole, content), OllamaMessage(AssistantRole, reply.value)])
      && (reply.Err? ==> st'.conversations[id].messages == before + [OllamaMessage(UserRole, content)])
      && |st'.conversations[id].messages| == |before| + (if reply.Ok? then 2 else 1)
      && (forall k :: k != id ==> GetConversation(st', k) == GetConversation(st, k))
      && st'.order == st.order
  {
  }

  /** The final assistant message of a stream is the in-order concatenation of its chunks. */
  lemma StreamStoresConcatenation(st: Store, id: string, content: string, chunks: seq<string>, now: nat)
    requires id in st.conversations
    ensures var (st', r) := Stream(st, id, content, chunks, None, now);
      var before := st.conversations[id].messages;
      && r == Ok(Concat(chunks))
      && st'.conversations[id].messages ==
           before + [OllamaMessage(UserRole, content), OllamaMessage(AssistantRole, Concat(chunks))]
      && (forall k :: k != id ==> GetConversation(st', k) == GetConversation(st, k))
  {
  }

  lemma {:induction false} ConcatLength(chunks: seq<string>)
    ensures |Concat(chunks)| == SumLengths(chunks)
  {
    if chunks != [] {
      ConcatLength(chunks[..|chunks| - 1]);
    }
  }

  function SumLengths(chunks: seq<string>): nat {
    if chunks == [] then 0 else SumLengths(chunks[..|chunks| - 1]) + |chunks[|chunks| - 1]|
  }

  /** Each chunk sits in the concatenation right after the chunks before it. */
  lemma {:induction false} ConcatHasChunks(chunks: seq<string>, i: nat)
    requires i < |chunks|
    ensures IsPrefix(Concat(chunks[..i]) + chunks[i], Concat(chunks))
  {
    if i < |chunks| - 1 {
      ConcatHasChunks(chunks[..|chunks| - 1], i);
      assert chunks[..|chunks| - 1][..i] == chunks[..i];
      assert chunks[..|chunks| - 1][i] == chunks[i];
    } else {
      assert chunks[..|chunks| - 1] == chunks[..i];
    }
  }

  /**
   * `clearConversation` keeps only a leading system message when asked to,
   * else empties the history; clearing twice is clearing once.
   */
  lemma ClearRules(st: Store, id: string, keep: bool, now: nat)
    requires id in st.conversations
    ensures var (st', r) := Clear(st, id, keep, now);
      var before := st.conversations[id].messages;
      && r
      && (keep && |before| > 0 && before[0].role == SystemRole ==> st'.conversations[id].messages == [before[0]])
      && (!(keep && |before| > 0 && before[0].role == SystemRole) ==> st'.conversations[id].messages == [])
      && Clear(st', id, keep, now).0 == st'
      && (forall k :: k != id ==> GetConversation(st', k) == GetConversation(st, k))
  {
  }

  /** Listing the values of a key order with one key cut out is the listing with that entry cut out. */
  lemma ValuesWithout(order: seq<string>, conversations: map<string, Conversation>, i: nat)
    requires forall k :: k in order ==> k in conversations
    requires i < |order|
    ensures ValuesInOrder(order[..i] + order[i + 1..], conversations) ==
            ValuesInOrder(order, conversations)[..i] + ValuesInOrder(order, conversations)[i + 1..]
  {
    var cut := order[..i] + order[i + 1..];
    var all := ValuesInOrder(order, conversations);
    var l := ValuesInOrder(cut, conversations);
    assert |l| == |all[..i] + all[i + 1..]|;
    forall j | 0 <= j < |l| ensures l[j] == (all[..i] + all[i + 1..])[j] {
      if j < i {
        assert cut[j] == order[j];
      } else {
        assert cut[j] == order[j + 1];
      }
    }
  }

  /** `deleteConversation` reports whether the id existed; afterwards `getConversation` finds nothing under it. */
  lemma DeleteRemoves(st: Store, id: string)
    requires WellFormed(st)
    ensures var (st', r) := Delete(st, id);
      && (r <==> id in st.conversations)
      && GetConversation(st', id).None?
      && WellFormed(st')
      && (forall k :: k != id ==> GetConversation(st', k) == GetConversation(st, k))
  {
    OperationsPreserveWellFormed(st, id, Conversation("", "", [], "", 0, 0));
  }

  /** Deleting the id at index `i` of the key order cuts that entry out of `getAllConversations`. */
  lemma DeleteUnlists(st: Store, id: string, i: nat)
    requires WellFormed(st) && i < |st.order| && st.order[i] == id
    ensures WellFormed(Delete(st, id).0)
    ensures GetAllConversations(Delete(st, id).0) == GetAllConversations(st)[..i] + GetAllConversations(st)[i + 1..]
  {
    DeleteRemoves(st, id);
    var st' := Delete(st, id).0;
    DeleteKeyAt(st.order, id, i);
    ValuesWithout(st.order, st.conversations, i);
    ValuesSameOnKeys(st'.order, st.conversations, st'.conversations);
  }

  /** Deleting an unknown id leaves the listing as it was. */
  lemma DeleteUnknownKeepsListing(st: Store, id: string)
    requires WellFormed(st) && id !in st.conversations
    ensures WellFormed(Delete(st, id).0)
    ensures GetAllConversations(Delete(st, id).0) == GetAllConversations(st)
  {
    DeleteRemoves(st, id);
    DeleteKeyAbsent(st.order, id);
    ValuesSameOnKeys(st.order, st.conversations, Delete(st, id).0.conversations);
  }

  lemma ValuesSameOnKeys(order: seq<string>, m1: map<string, Conversation>, m2: map<string, Conversation>)
    requires forall k :: k in order ==> k in m1 && k in m2 && m1[k] == m2[k]
    ensures ValuesInOrder(order, m1) == ValuesInOrder(order, m2)
  {
    var a := ValuesInOrder(order, m1);
    var b := ValuesInOrder(order, m2);
    assert forall j :: 0 <= j < |a| ==> a[j] == b[j];
  }

  // ---------------------------------------------------------------------------
  // The service object
  // ---------------------------------------------------------------------------

  class OllamaService {
    var order: seq<string>
    var conversations: map<string, Conversation>

    function State(): Store
      reads this
    {
      Store(order, conversations)
    }

    ghost predicate Valid()
      reads this
    {
      WellFormed(State())
    }

    constructor ()
      ensures State() == Store([], map[]) && Valid()
    {
      order, conversations := [], map[];
    }

    method CreateConversation(title: Option<string>, systemPrompt: Option<string>, model: Option<string>, now: nat)
      returns (id: string)
      requires Valid()
      modifies this
      ensures Valid()
      ensures (State(), id) == Create(old(State()), title, systemPrompt, model, now)
    {
      id := NatToString(now);
      var messages: seq<OllamaMessage> := [];
      if systemPrompt.Some? && systemPrompt.value != "" {
        messages := messages + [OllamaMessage(SystemRole, systemPrompt.value)];
      }
      assert messages == InitialHistory(systemPrompt);
      var c := Conversation(id, if title.Some? then title.value else DefaultTitle, messages,
                            NormalizeModelName(if model.Some? then model.value else DefaultModel), now, now);
      SetKeyDistinct(order, id);
      order := SetKey(order, id);
      conversations := conversations[id := c];
    }

    method SendMessage(id: string, content: string, reply: Result<string>, now: nat) returns (r: Result<string>)
      requires Valid()
      modifies this
      ensures Valid()
      ensures (State(), r) == Send(old(State()), id, content, reply, now)
    {
      if id !in conversations {
        return Err(NotFound(id));
      }
      assert SetKey(order, id) == order;
      var c := conversations[id];
      c := c.(messages := c.messages + [OllamaMessage(UserRole, content)]);
      conversations := conversations[id := c];
      if reply.Err? {
        return Err(reply.error);
      }
      c := c.(messages := c.messages + [OllamaMessage(AssistantRole, reply.value)], updatedAt := now);
      conversations := conversations[id := c];
      assert conversations == old(conversations)[id := c];
      r := Ok(reply.value);
    }

    /** The chunks are yielded as they arrive and accumulated into `fullResponse`. */
    method StreamMessage(id: string, content: string, chunks: seq<string>, failure: Option<string>, now: nat)
      returns (r: Result<string>, yielded: seq<string>)
      requires Valid()
      modifies this
      ensures Valid()
      ensures (State(), r) == Stream(old(State()), id, content, chunks, failure, now)
      ensures id in old(conversations) ==> yielded == chunks
      ensures id !in old(conversations) ==> yielded == []
    {
      if id !in conversations {
        return Err(NotFound(id)), [];
      }
      assert SetKey(order, id) == order;
      var c := conversations[id];
      c := c.(messages := c.messages + [OllamaMessage(UserRole, content)]);
      conversations := conversations[id := c];
      var fullResponse := "";
      yielded := [];
      var i := 0;
      while i < |chunks|
        invariant 0 <= i <= |chunks|
        invariant fullResponse == Concat(chunks[..i])
        invariant yielded == chunks[..i]
        invariant order == old(order) && conversations == old(conversations)[id := c]
      {
        assert chunks[..i + 1][..i] == chunks[..i];
        fullResponse := fullResponse + chunks[i];
        yielded := yielded + [chunks[i]];
        i := i + 1;
      }
      assert chunks[..i] == chunks;
      if failure.Some? {
        return Err(failure.value), yielded;
      }
      c := c.(messages := c.messages + [OllamaMessage(AssistantRole, fullResponse)], updatedAt := now);
      conversations := conversations[id := c];
      assert conversations == old(conversations)[id := c];
      r := Ok(fullResponse);
    }

    method ClearConversation(id: string, keepSystemPrompt: bool, now: nat) returns (r: bool)
      requires Valid()
      modifies this
      ensures Valid()
      ensures (State(), r) == Clear(old(State()), id, keepSystemPrompt, now)
    {
      if id !in conversations {
        return false;
      }
      assert SetKey(order, id) == order;
      var c := conversations[id];
      if keepSystemPrompt && |c.messages| > 0 && c.messages[0].role == SystemRole {
        c := c.(messages := [c.messages[0]]);
      } else {
        c := c.(messages := []);
      }
      c := c.(updatedAt := now);
      conversations := conversations[id := c];
      r := true;
    }

    method DeleteConversation(id: string) returns (r: bool)
      requires Valid()
      modifies this
      ensures Valid()
      ensures (State(), r) == Delete(old(State()), id)
    {
      r := id in conversations;
      DeleteKeyDistinct(order, id);
      order := DeleteKey(order, id);
      conversations := conversations - {id};
    }
  }
}

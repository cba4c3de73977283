/**
 * `src/components/AIService.tsx`: detecting an `@AI` mention, stripping it
 * from the prompt, and the assistant's placeholder message that is appended
 * at once and replaced by id when the (simulated) reply arrives.
 *
 * The 1.5 s timer is the separate method `CompleteAIResponse`; the uuid and
 * the two `new Date()` timestamps are parameters.
 */
module AIService {
  import opened Strings
  import opened ChatViews

  /** The regular expression alternative `@AI\s+` can start at index `p`. */
  predicate AIAt(s: string, p: nat) {
    p + 4 <= |s| && s[p] == '@' && s[p + 1] == 'A' && s[p + 2] == 'I' && IsSpace(s[p + 3])
  }

  /**
   * `content.replace(/@AI\s+|@AI Assistant\s+/g, '')`: scanning left to right,
   * each match of `@AI` and its whole whitespace run is dropped. The first
   * alternative is tried first and matches wherever the second would.
   */
  function StripAI(s: string): (r: string)
    ensures |r| <= |s|
    decreases |s|
  {
    if s == [] then []
    else if AIAt(s, 0) then StripAI(TrimStart(s[3..]))
    else [s[0]] + StripAI(s[1..])
  }

  /** Wherever `@AI Assistant` and a space could match, the first alternative already matches. */
  lemma SecondAlternativeNeverWins(s: string, p: nat)
    requires OccursAt(s, "@AI Assistant", p)
    ensures AIAt(s, p)
  {
    assert s[p + 3] == "@AI Assistant"[3];
  }

  /** A match drops `@AI` and the whole white-space run after it. */
  lemma MentionDropped(w: string, t: string)
    requires |w| >= 1 && forall i :: 0 <= i < |w| ==> IsSpace(w[i])
    requires t == [] || !IsSpace(t[0])
    ensures StripAI("@AI" + w + t) == StripAI(t)
  {
    var s := "@AI" + w + t;
    var rest := w + t;
    assert s == "@AI" + rest;
    MatchAtStart(rest);
    TrimSpaceRun(w, t);
  }

  lemma MatchAtStart(rest: string)
    requires |rest| >= 1 && IsSpace(rest[0])
    ensures StripAI("@AI" + rest) == StripAI(TrimStart(rest))
  {
    var s := "@AI" + rest;
    assert s[0] == '@' && s[1] == 'A' && s[2] == 'I' && s[3] == rest[0];
    assert AIAt(s, 0);
    assert s[3..] == rest;
  }

  lemma {:induction false} TrimSpaceRun(w: string, t: string)
    requires forall i :: 0 <= i < |w| ==> IsSpace(w[i])
    requires t == [] || !IsSpace(t[0])
    ensures TrimStart(w + t) == t
  {
    if w != [] {
      assert (w + t)[1..] == w[1..] + t;
      TrimSpaceRun(w[1..], t);
    } else {
      assert w + t == t;
    }
  }

  /** Text without `@` passes through unchanged. */
  lemma {:induction false} StripKeepsAtFree(a: string, u: string)
    requires '@' !in a
    ensures StripAI(a + u) == a + StripAI(u)
  {
    if a != [] {
      assert !AIAt(a + u, 0);
      assert (a + u)[1..] == a[1..] + u;
      StripKeepsAtFree(a[1..], u);
    } else {
      assert a + u == u;
    }
  }

  /** After a match, a word without `@` is kept as it is. */
  lemma WordAfterMentionKept(w: string, a: string, u: string)
    requires |w| >= 1 && forall i :: 0 <= i < |w| ==> IsSpace(w[i])
    requires a != [] && !IsSpace(a[0]) && '@' !in a
    ensures StripAI("@AI" + w + a + u) == a + StripAI(u)
  {
    assert "@AI" + w + a + u == "@AI" + w + (a + u);
    MentionDropped(w, a + u);
    StripKeepsAtFree(a, u);
  }

  /** The second alternative never applies: `@AI Assistant` loses only `@AI` and the space. */
  lemma AssistantIsKept(u: string)
    ensures StripAI("@AI Assistant" + u) == "Assistant" + StripAI(u)
  {
    assert "@AI" + " " + "Assistant" + u == "@AI Assistant" + u;
    assert "Assistant"[0] == 'A' && '@' !in "Assistant";
    WordAfterMentionKept(" ", "Assistant", u);
  }

  /** Stripping changes the text exactly when some `@AI` is followed by white space, and then shortens it. */
  lemma {:induction false} StripChangesIffMatch(s: string)
    ensures StripAI(s) == s <==> forall p: nat :: !AIAt(s, p)
    ensures (exists p: nat :: AIAt(s, p)) ==> |StripAI(s)| < |s|
    decreases |s|
  {
    if s == [] {
    } else if AIAt(s, 0) {
      assert |StripAI(s)| <= |TrimStart(s[3..])| < |s|;
    } else {
      StripChangesIffMatch(s[1..]);
      forall p: nat ensures AIAt(s, p + 1) <==> AIAt(s[1..], p) {
      }
      if exists p: nat :: AIAt(s, p) {
        var p: nat :| AIAt(s, p);
        assert p != 0 && AIAt(s[1..], p - 1);
      }
      if exists p: nat :: AIAt(s[1..], p) {
        var p: nat :| AIAt(s[1..], p);
        assert AIAt(s, p + 1);
      }
    }
  }

  /** `detectAIMention`'s test. */
  predicate DetectAIMention(content: string) {
    Contains(content, "@AI ") || Contains(content, "@AI Assistant")
  }

  /** The second test adds nothing: `@AI Assistant` itself contains `@AI `. */
  lemma DetectIffAISpace(content: string)
    ensures DetectAIMention(content) <==> Contains(content, "@AI ")
  {
    if Contains(content, "@AI Assistant") {
      assert OccursAt("@AI Assistant", "@AI ", 0);
      ContainsAt("@AI Assistant", "@AI ", 0);
      ContainsTransitive(content, "@AI Assistant", "@AI ");
    }
  }

  /** A detected mention is always stripped: the prompt is shorter than the content. */
  lemma DetectedMentionIsStripped(content: string)
    requires DetectAIMention(content)
    ensures |StripAI(content)| < |content|
  {
    DetectIffAISpace(content);
    ContainsIffOccurs(content, "@AI ");
    var p :| OccursAt(content, "@AI ", p);
    assert content[p..p + 4] == "@AI ";
    assert content[p + 3] == content[p..p + 4][3] == ' ';
    assert AIAt(content, p);
    StripChangesIffMatch(content);
  }

  /** The loading placeholder of `generateAIResponse`. */
  function Placeholder(id: string, roomId: string, now: int): MessageExt {
    MessageExt(id, "", AIAssistantId, now, true, Some(roomId), false, None)
  }

  /** The reply that replaces the placeholder: a fresh object, so not loading and without status. */
  function Reply(id: string, roomId: string, prompt: string, now: int): MessageExt {
    MessageExt(id, "I'm responding to your question: \"" + prompt + "\"", AIAssistantId, now, false, Some(roomId), false, None)
  }

  /** `findIndex(m => m.id === id)`. */
  function FindIndexById(list: seq<MessageExt>, id: string): (r: int)
    ensures -1 <= r < |list|
    ensures r == -1 <==> forall j :: 0 <= j < |list| ==> list[j].id != id
    ensures r >= 0 ==> list[r].id == id && forall j :: 0 <= j < r ==> list[j].id != id
  {
    if list == [] then -1
    else if list[0].id == id then 0
    else var k := FindIndexById(list[1..], id); if k == -1 then -1 else k + 1
  }

  /** The copy with `newMessages[messageIndex] = reply`, or the list itself when the id is gone. */
  function ReplaceById(list: seq<MessageExt>, id: string, reply: MessageExt): seq<MessageExt> {
    var k := FindIndexById(list, id);
    if k == -1 then list else list[k := reply]
  }

  /**
   * Replacing by id changes exactly the first entry with that id and keeps
   * every other entry in its place; with no such entry nothing changes.
   */
  lemma ReplaceByIdInPlace(list: seq<MessageExt>, id: string, reply: MessageExt)
    ensures var r := ReplaceById(list, id, reply);
      && |r| == |list|
      && ((forall j :: 0 <= j < |list| ==> list[j].id != id) ==> r == list)
      && (forall k :: 0 <= k < |list| && list[k].id == id && (forall j :: 0 <= j < k ==> list[j].id != id) ==>
            r[k] == reply && forall j :: 0 <= j < |list| && j != k ==> r[j] == list[j])
  {
  }

  /** A placeholder with a fresh id, once appended, is the entry the reply replaces. */
  lemma PlaceholderThenReply(list: seq<MessageExt>, id: string, roomId: string, prompt: string, t0: int, t1: int)
    requires forall j :: 0 <= j < |list| ==> list[j].id != id
    ensures ReplaceById(list + [Placeholder(id, roomId, t0)], id, Reply(id, roomId, prompt, t1)) ==
            list + [Reply(id, roomId, prompt, t1)]
  {
    var l := list + [Placeholder(id, roomId, t0)];
    assert forall j :: 0 <= j < |list| ==> l[j] == list[j];
    assert l[|list|].id == id;
    assert FindIndexById(l, id) == |list|;
  }

  /** The timer that `generateAIResponse` arms: what the callback needs to finish. */
  datatype PendingReply = PendingReply(id: string, roomId: string, prompt: string)

  /**
   * `generateAIResponse(content, roomId)`: without a user whose id is
   * `ai-assistant` nothing happens; otherwise the placeholder is appended to
   * the room's list and the generating flag is set.
   */
  method GenerateAIResponse(store: ViewStore, content: string, roomId: string, id: string, now: int)
    returns (pending: Option<PendingReply>)
    modifies store
    ensures FindUser(old(store.users), AIAssistantId).None? ==> pending == None && unchanged(store)
    ensures FindUser(old(store.users), AIAssistantId).Some? ==>
      && pending == Some(PendingReply(id, roomId, content))
      && store.messages == old(store.messages)[roomId := MessagesOf(old(store.messages), roomId) + [Placeholder(id, roomId, now)]]
      && store.ollamaIsGenerating
    ensures store.users == old(store.users) && store.rooms == old(store.rooms) && store.isConnected == old(store.isConnected)
  {
    var ai := FindUser(store.users, AIAssistantId);
    if ai.None? {
      return None;
    }
    var roomMessages := MessagesOf(store.messages, roomId);
    store.SetMessages(roomId, roomMessages + [Placeholder(id, roomId, now)]);
    store.SetGenerating(true);
    pending := Some(PendingReply(id, roomId, content));
  }

  /**
   * The timer callback: the placeholder, found by id in the room's current
   * list, is replaced by the reply; a list without it is left alone. The
   * generating flag is cleared either way.
   */
  method CompleteAIResponse(store: ViewStore, p: PendingReply, now: int)
    modifies store
    ensures var list := MessagesOf(old(store.messages), p.roomId);
      store.messages ==
        if FindIndexById(list, p.id) == -1 then old(store.messages)
        else old(store.messages)[p.roomId := ReplaceById(list, p.id, Reply(p.id, p.roomId, p.prompt, now))]
    ensures !store.ollamaIsGenerating
    ensures store.users == old(store.users) && store.rooms == old(store.rooms) && store.isConnected == old(store.isConnected)
  {
    var updated := MessagesOf(store.messages, p.roomId);
    var k := FindIndexById(updated, p.id);
    if k != -1 {
      var newMessages := updated;
      newMessages := newMessages[k := Reply(p.id, p.roomId, p.prompt, now)];
      store.SetMessages(p.roomId, newMessages);
    }
    store.SetGenerating(false);
  }

  /**
   * `detectAIMention(content, roomId)`: on a mention, the stripped prompt goes
   * to `generateAIResponse`; the result says whether it did.
   */
  method DetectAIMentionAndRespond(store: ViewStore, content: string, roomId: string, id: string, now: int)
    returns (mentioned: bool, pending: Option<PendingReply>)
    modifies store
    ensures mentioned == DetectAIMention(content)
    ensures !mentioned ==> pending == None && unchanged(store)
    ensures mentioned && FindUser(old(store.users), AIAssistantId).None? ==>
      pending == None && unchanged(store)
    ensures mentioned && FindUser(old(store.users), AIAssistantId).Some? ==>
      && pending == Some(PendingReply(id, roomId, StripAI(content)))
      && store.messages == old(store.messages)[roomId := MessagesOf(old(store.messages), roomId) + [Placeholder(id, roomId, now)]]
      && store.ollamaIsGenerating
    ensures store.users == old(store.users) && store.rooms == old(store.rooms) && store.isConnected == old(store.isConnected)
  {
    if DetectAIMention(content) {
      pending := GenerateAIResponse(store, StripAI(content), roomId, id, now);
      return true, pending;
    }
    return false, None;
  }
}

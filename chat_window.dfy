/**
 * The decisions of `src/components/ChatWindow.tsx`: where a submitted message
 * goes, how the focus handler marks messages read, which chat name a
 * notification carries, and which chats raise a notification when the store
 * changes.
 */
module ChatWindow {
  import opened Strings
  import opened ChatViews
  import AIService
  import NotificationService

  /** The active chat: its id and `activeType`. */
  datatype ActiveChat = ActiveChat(id: string, kind: ChatKind)

  /** Where `handleSendMessage` sends the content. */
  datatype Route =
    | Ignored
    | ToStore(content: string)
    | ToAssistant(roomId: string, prompt: string)

  /**
   * `handleSendMessage(content)`: blank content is dropped; in a room a
   * detected `@AI` mention goes only to the assistant (with the stripped
   * prompt), anything else goes to the store's `sendMessage`.
   */
  function SendRoute(content: string, active: Option<ActiveChat>): Route {
    if IsBlank(content) then Ignored
    else if active.Some? && active.value.kind == RoomChat then
      (if AIService.DetectAIMention(content)
       then ToAssistant(active.value.id, AIService.StripAI(content))
       else ToStore(content))
    else ToStore(content)
  }

  /**
   * Content made of white space only is never sent; a mention in a room never
   * reaches the store and its prompt is shorter than the content; everywhere
   * else non-blank content reaches the store unchanged.
   */
  lemma SendRouting(content: string, active: Option<ActiveChat>)
    ensures (forall i :: 0 <= i < |content| ==> IsSpace(content[i])) <==> SendRoute(content, active) == Ignored
    ensures SendRoute(content, active).ToAssistant? ==>
      && active.Some? && active.value.kind == RoomChat
      && SendRoute(content, active).roomId == active.value.id
      && |SendRoute(content, active).prompt| < |content|
    ensures SendRoute(content, active).ToStore? ==> SendRoute(content, active).content == content
    ensures !IsBlank(content) && (active.None? || active.value.kind == UserChat) ==> SendRoute(content, active) == ToStore(content)
    ensures !IsBlank(content) && active.Some? && active.value.kind == RoomChat ==>
      (SendRoute(content, active).ToStore? <==> !Contains(content, "@AI "))
  {
    BlankIffAllSpace(content);
    AIService.DetectIffAISpace(content);
    if SendRoute(content, active).ToAssistant? {
      AIService.DetectedMentionIsStripped(content);
    }
  }

  /** The `map` of the focus handler: every message not sent by the current user becomes `read`. */
  function MarkRead(msgs: seq<MessageExt>, currentUser: Option<string>): (r: seq<MessageExt>)
    ensures |r| == |msgs|
    ensures forall i :: 0 <= i < |msgs| ==>
      r[i] == if Some(msgs[i].sender) != currentUser then msgs[i].(status := Some(Read)) else msgs[i]
  {
    if msgs == [] then []
    else MarkRead(msgs[..|msgs| - 1], currentUser) + [ReadOne(msgs[|msgs| - 1], currentUser)]
  }

  function ReadOne(m: MessageExt, currentUser: Option<string>): MessageExt {
    if Some(m.sender) != currentUser then m.(status := Some(Read)) else m
  }

  /** `handleFocus`: with an active chat, its list (or `[]`) is replaced by the marked copy. */
  function HandleFocus(messages: map<string, seq<MessageExt>>, active: Option<ActiveChat>, currentUser: Option<string>)
    : map<string, seq<MessageExt>>
  {
    if active.None? then messages
    else messages[active.value.id := MarkRead(MessagesOf(messages, active.value.id), currentUser)]
  }

  /** `after` is `before` with every message not sent by the current user marked `read`, in the same order. */
  ghost predicate MarkedRead(before: seq<MessageExt>, after: seq<MessageExt>, currentUser: Option<string>) {
    && |after| == |before|
    && (forall i :: 0 <= i < |before| && Some(before[i].sender) == currentUser ==> after[i] == before[i])
    && (forall i :: 0 <= i < |before| && Some(before[i].sender) != currentUser ==>
          after[i].status == Some(Read) && after[i].(status := before[i].status) == before[i])
  }

  /**
   * Focus marks the received messages of the active chat read and leaves the
   * current user's own messages, the order and every other chat as they were.
   */
  lemma FocusMarksReceived(messages: map<string, seq<MessageExt>>, active: Option<ActiveChat>, currentUser: Option<string>)
    ensures active.None? ==> HandleFocus(messages, active, currentUser) == messages
    ensures active.Some? ==>
      var id := active.value.id;
      var r := HandleFocus(messages, active, currentUser);
      && r.Keys == messages.Keys + {id}
      && (forall c :: c in messages && c != id ==> r[c] == messages[c])
      && MarkedRead(MessagesOf(messages, id), r[id], currentUser)
  {
    if active.Some? {
      var before := MessagesOf(messages, active.value.id);
      var once := MarkRead(before, currentUser);
      forall i | 0 <= i < |before| && Some(before[i].sender) != currentUser
        ensures once[i].status == Some(Read) && once[i].(status := before[i].status) == before[i]
      {
        assert once[i] == before[i].(status := Some(Read));
      }
      assert MarkedRead(before, once, currentUser);
    }
  }

  /** Focusing twice is focusing once. */
  lemma FocusIdempotent(messages: map<string, seq<MessageExt>>, active: Option<ActiveChat>, currentUser: Option<string>)
    ensures HandleFocus(HandleFocus(messages, active, currentUser), active, currentUser) == HandleFocus(messages, active, currentUser)
  {
    if active.Some? {
      var id := active.value.id;
      var once := MarkRead(MessagesOf(messages, id), currentUser);
      var r := messages[id := once];
      assert MessagesOf(r, id) == once;
      MarkReadIdempotent(MessagesOf(messages, id), currentUser);
    }
  }

  lemma MarkReadIdempotent(msgs: seq<MessageExt>, currentUser: Option<string>)
    ensures MarkRead(MarkRead(msgs, currentUser), currentUser) == MarkRead(msgs, currentUser)
  {
    var once := MarkRead(msgs, currentUser);
    var twice := MarkRead(once, currentUser);
    forall i | 0 <= i < |once| ensures twice[i] == once[i] {
    }
  }

  /** The chat name for a notification: `room-` ids are looked up in `rooms`, all others in `users`. */
  function ChatName(chatId: string, rooms: seq<Room>, users: seq<ViewUser>): string {
    if IsPrefix("room-", chatId) then
      (var r := FindRoom(rooms, chatId); if r.Some? then r.value.name else "")
    else
      (var u := FindUser(users, chatId); if u.Some? then u.value.username else "")
  }

  /**
   * The name is that of a room with the id for a `room-` id and that of a user
   * with the id otherwise, or empty when the lookup fails; so a user whose id
   * begins with `room-` is never named.
   */
  lemma ChatNameLookup(chatId: string, rooms: seq<Room>, users: seq<ViewUser>)
    ensures var n := ChatName(chatId, rooms, users);
      && (IsPrefix("room-", chatId) ==>
            (n == "" && forall r :: r in rooms ==> r.id != chatId) || exists r :: r in rooms && r.id == chatId && r.name == n)
      && (!IsPrefix("room-", chatId) ==>
            (n == "" && forall u :: u in users ==> u.id != chatId) || exists u :: u in users && u.id == chatId && u.username == n)
      && (IsPrefix("room-", chatId) && (forall r :: r in rooms ==> r.id != chatId) ==> n == "")
  {
  }

  /** The recency window of the store subscription. */
  const RecentMillis: int := 5000

  /** One entry of `Object.entries(messages)` raises a notification. */
  predicate ShouldNotify(chatId: string, msgs: seq<MessageExt>, activeChatId: string, currentUser: string, now: int) {
    && chatId != activeChatId
    && |msgs| > 0
    && now - msgs[|msgs| - 1].timestamp < RecentMillis
    && msgs[|msgs| - 1].sender != currentUser
  }

  datatype Raised = Raised(chatId: string, notice: NotificationService.Notice)

  function NoticeFor(chatId: string, msgs: seq<MessageExt>, rooms: seq<Room>, users: seq<ViewUser>): Raised
    requires |msgs| > 0
  {
    Raised(chatId, NotificationService.ShowNotification(msgs[|msgs| - 1], ChatName(chatId, rooms, users)))
  }

  /** The notifications raised by one store change, in entry order. */
  function Raise(entries: seq<(string, seq<MessageExt>)>, activeChatId: string, currentUser: string,
                 rooms: seq<Room>, users: seq<ViewUser>, now: int): seq<Raised>
  {
    if entries == [] then []
    else
      var e := entries[|entries| - 1];
      Raise(entries[..|entries| - 1], activeChatId, currentUser, rooms, users, now) +
      (if ShouldNotify(e.0, e.1, activeChatId, currentUser, now) then [NoticeFor(e.0, e.1, rooms, users)] else [])
  }

  /**
   * A notification is raised for an entry exactly when it qualifies: another
   * chat, a non-empty list, a last message under 5000 ms old and not from the
   * current user. Each carries that last message's title and body.
   */
  lemma {:induction false} RaiseIff(entries: seq<(string, seq<MessageExt>)>, activeChatId: string, currentUser: string,
                                    rooms: seq<Room>, users: seq<ViewUser>, now: int)
    ensures var out := Raise(entries, activeChatId, currentUser, rooms, users, now);
      && |out| <= |entries|
      && (forall k :: 0 <= k < |entries| && ShouldNotify(entries[k].0, entries[k].1, activeChatId, currentUser, now) ==>
            NoticeFor(entries[k].0, entries[k].1, rooms, users) in out)
      && (forall n :: n in out ==>
            exists k :: 0 <= k < |entries| && ShouldNotify(entries[k].0, entries[k].1, activeChatId, currentUser, now) &&
                        n == NoticeFor(entries[k].0, entries[k].1, rooms, users))
  {
    if entries != [] {
      var init := entries[..|entries| - 1];
      RaiseIff(init, activeChatId, currentUser, rooms, users, now);
      forall k | 0 <= k < |init| ensures init[k] == entries[k] {
      }
    }
  }

  /**
   * The store subscription: nothing without a current user and an active
   * chat; otherwise one notification per qualifying entry, in entry order.
   */
  method OnStoreChange(entries: seq<(string, seq<MessageExt>)>, active: Option<ActiveChat>, currentUser: Option<string>,
                       rooms: seq<Room>, users: seq<ViewUser>, now: int)
    returns (out: seq<Raised>)
    ensures (active.None? || currentUser.None? || currentUser.value == "") ==> out == []
    ensures active.Some? && currentUser.Some? && currentUser.value != "" ==>
      out == Raise(entries, active.value.id, currentUser.value, rooms, users, now)
  {
    out := [];
    if currentUser.None? || currentUser.value == "" || active.None? {
      return;
    }
    var activeChatId := active.value.id;
    var i := 0;
    while i < |entries|
      invariant 0 <= i <= |entries|
      invariant out == Raise(entries[..i], activeChatId, currentUser.value, rooms, users, now)
    {
      assert entries[..i + 1][..i] == entries[..i];
      var (chatId, chatMessages) := entries[i];
      if chatId != activeChatId && |chatMessages| > 0 {
        var lastMessage := chatMessages[|chatMessages| - 1];
        var isRecent := now - lastMessage.timestamp < RecentMillis;
        if isRecent && lastMessage.sender != currentUser.value {
          var chatName := ChatName(chatId, rooms, users);
          out := out + [Raised(chatId, NotificationService.ShowNotification(lastMessage, chatName))];
        }
      }
      i := i + 1;
    }
    assert entries[..i] == entries;
  }
}

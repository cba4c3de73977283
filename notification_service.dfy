/**
 * `src/components/NotificationService.tsx`: the title and body of a desktop
 * notification, the `sent` status marking, and the offline message queue
 * that is drained through `ChatService` once the connection is back.
 *
 * The browser's `Notification` object and its permission, and the window's
 * `online`/`offline` events, are outside the model: the events are methods
 * the environment calls, and a notification is the title/body pair.
 */
module NotificationService {
  import opened Strings
  import opened ChatViews
  import opened ChatClient

  const BodyLimit: nat := 50

  /** The `body` option: at most 50 characters, cut to 47 plus `...`. */
  function Body(content: string): (r: string)
    ensures |r| <= BodyLimit
    ensures |content| <= BodyLimit ==> r == content
    ensures |content| > BodyLimit ==> |r| == BodyLimit && r[..47] == content[..47] && r[47..] == "..."
  {
    if |content| > BodyLimit then content[..47] + "..." else content
  }

  /** The title: system messages get a fixed one; otherwise the chat name, or `New message` for an empty one. */
  function Title(message: MessageExt, chatName: string): (r: string)
    ensures r != ""
    ensures message.isSystemMessage ==> r == "System Notification"
    ensures !message.isSystemMessage && chatName != "" ==> r == chatName
    ensures !message.isSystemMessage && chatName == "" ==> r == "New message"
  {
    if message.isSystemMessage then "System Notification"
    else if chatName != "" then chatName
    else "New message"
  }

  datatype Notice = Notice(title: string, body: string)

  /** `showNotification(chatId, message, chatName)`, without the browser object. */
  function ShowNotification(message: MessageExt, chatName: string): Notice {
    Notice(Title(message, chatName), Body(message.content))
  }

  /** A notice's body is a prefix of the content, or its first 47 characters and `...`. */
  lemma NoticeBodyFromContent(message: MessageExt, chatName: string)
    ensures var n := ShowNotification(message, chatName);
      && |n.body| <= BodyLimit && n.title != ""
      && (IsPrefix(n.body, message.content) || (IsPrefix(n.body[..47], message.content) && n.body[47..] == "..."))
  {
  }

  /** The `map` of `addMessageStatusIndicators` over one chat. */
  function MarkSent(msgs: seq<MessageExt>, currentUser: string): (r: seq<MessageExt>)
    ensures |r| == |msgs|
    ensures forall i :: 0 <= i < |msgs| ==>
      r[i] == if msgs[i].sender == currentUser && msgs[i].status.None? then msgs[i].(status := Some(Sent)) else msgs[i]
  {
    if msgs == [] then []
    else MarkSent(msgs[..|msgs| - 1], currentUser) + [MarkOne(msgs[|msgs| - 1], currentUser)]
  }

  function MarkOne(m: MessageExt, currentUser: string): MessageExt {
    if m.sender == currentUser && m.status.None? then m.(status := Some(Sent)) else m
  }

  /** `addMessageStatusIndicators(currentUser)` on the whole message map; a null or empty user does nothing. */
  function AddStatusIndicators(messages: map<string, seq<MessageExt>>, currentUser: Option<string>): (r: map<string, seq<MessageExt>>)
    ensures r.Keys == messages.Keys
  {
    if currentUser.None? || currentUser.value == "" then messages
    else map chatId | chatId in messages :: MarkSent(messages[chatId], currentUser.value)
  }

  /**
   * Marking gives status `sent` to the current user's messages that had no
   * status, and leaves every other message, every chat and every length as
   * it was.
   */
  lemma StatusIndicatorsMarkOnlyOwn(messages: map<string, seq<MessageExt>>, currentUser: Option<string>)
    ensures var r := AddStatusIndicators(messages, currentUser);
      && r.Keys == messages.Keys
      && (currentUser.None? || currentUser.value == "" ==> r == messages)
      && forall chatId :: chatId in messages ==>
           && |r[chatId]| == |messages[chatId]|
           && forall i :: 0 <= i < |messages[chatId]| ==>
                var m := messages[chatId][i];
                && r[chatId][i].status == (if currentUser.Some? && currentUser.value != "" && m.sender == currentUser.value && m.status.None? then Some(Sent) else m.status)
                && r[chatId][i].(status := m.status) == m
  {
  }

  /** Marking twice is marking once. */
  lemma StatusIndicatorsIdempotent(messages: map<string, seq<MessageExt>>, currentUser: Option<string>)
    ensures AddStatusIndicators(AddStatusIndicators(messages, currentUser), currentUser) == AddStatusIndicators(messages, currentUser)
  {
    if currentUser.Some? && currentUser.value != "" {
      var once := AddStatusIndicators(messages, currentUser);
      forall chatId | chatId in messages
        ensures MarkSent(once[chatId], currentUser.value) == once[chatId]
      {
      }
    }
  }

  /** `QueuedMessage`. */
  datatype ChatType = UserTarget | RoomTarget
  datatype Queued = Queued(message: string, chatId: string, chatType: ChatType)

  /** The frames a successful drain hands to the socket, in queue order; `ids` are the fresh message ids. */
  function DrainFrames(queue: seq<Queued>, from: string, ids: seq<string>): (r: seq<ClientFrame>)
    requires |ids| >= |queue|
    ensures |r| == |queue|
    ensures forall i :: 0 <= i < |queue| ==>
      r[i] == if queue[i].chatType == UserTarget
              then PrivateMessageFrame(from, queue[i].chatId, queue[i].message, ids[i])
              else RoomMessageFrame(from, queue[i].chatId, queue[i].message, ids[i])
  {
    if queue == [] then []
    else DrainFrames(queue[..|queue| - 1], from, ids) + [QueuedFrame(queue[|queue| - 1], from, ids[|queue| - 1])]
  }

  function QueuedFrame(q: Queued, from: string, id: string): ClientFrame {
    if q.chatType == UserTarget then PrivateMessageFrame(from, q.chatId, q.message, id)
    else RoomMessageFrame(from, q.chatId, q.message, id)
  }

  /** Draining in two parts sends the frames of the first part, then those of the second. */
  lemma {:induction false} DrainFramesSplit(a: seq<Queued>, b: seq<Queued>, from: string, ids: seq<string>)
    requires |ids| >= |a| + |b|
    ensures DrainFrames(a + b, from, ids) == DrainFrames(a, from, ids) + DrainFrames(b, from, ids[|a|..])
  {
    var l := DrainFrames(a + b, from, ids);
    var m := DrainFrames(a, from, ids) + DrainFrames(b, from, ids[|a|..]);
    forall i | 0 <= i < |l| ensures l[i] == m[i] {
      if i >= |a| {
        assert (a + b)[i] == b[i - |a|];
        assert ids[|a|..][i - |a|] == ids[i];
      } else {
        assert (a + b)[i] == a[i];
      }
    }
  }

  /** One step of the drain: `user` entries go out as private messages, all others as room messages. */
  method SendQueued(svc: ChatService, q: Queued, id: string) returns (r: Result<string>)
    requires svc.Valid()
    modifies svc`sent
    ensures svc.Valid()
    ensures r.Ok? <==> svc.isConnected && svc.HasUser()
    ensures r.Err? ==> r.error == "Not connected" && svc.sent == old(svc.sent)
    ensures r.Ok? ==> svc.sent == old(svc.sent) + [QueuedFrame(q, svc.userId.value, id)]
  {
    if q.chatType == UserTarget {
      r := svc.SendPrivateMessage(q.chatId, q.message, id);
    } else {
      r := svc.SendRoomMessage(q.chatId, q.message, id);
    }
  }

  /** The closure state of `setupOfflineMessageQueue`: the `offlineQueue` array. */
  class OfflineQueue {
    var queue: seq<Queued>

    /** Its contents are an input: no shown code ever enqueues. */
    constructor (initial: seq<Queued>)
      ensures queue == initial
    {
      queue := initial;
    }

    /** The `offline` listener: mark the store disconnected; the queue is untouched. */
    method OnOffline(store: ViewStore)
      modifies store`isConnected
      ensures !store.isConnected && queue == old(queue)
    {
      store.isConnected := false;
    }

    /** The `online` listener: reconnect as the current user, if there is one. */
    method OnOnline(currentUser: Option<string>, svc: ChatService)
      requires svc.Valid()
      modifies svc
      ensures svc.Valid()
      ensures (currentUser.None? || currentUser.value == "") ==> unchanged(svc)
      ensures currentUser.Some? && currentUser.value != "" ==>
        svc.userId == currentUser && svc.hasSocket && !svc.isConnected && svc.socketsCreated == old(svc.socketsCreated) + 1
      ensures currentUser.Some? && currentUser.value != "" && old(svc.hasSocket && svc.isConnected) ==>
        !svc.reconnectTimer && svc.socketsClosed == old(svc.socketsClosed) + 1
      ensures currentUser.Some? && currentUser.value != "" && !old(svc.hasSocket && svc.isConnected) ==>
        svc.reconnectTimer == old(svc.reconnectTimer) && svc.socketsClosed == old(svc.socketsClosed)
      ensures svc.reconnectAttempts == old(svc.reconnectAttempts)
      ensures svc.callbacks == old(svc.callbacks) && svc.sent == old(svc.sent) && svc.invoked == old(svc.invoked)
      ensures queue == old(queue)
    {
      if currentUser.Some? && currentUser.value != "" {
        svc.Connect(currentUser.value);
      }
    }

    /**
     * The `.then` callback once `connect` has resolved: shift and send until
     * the queue is empty. A send on a service that is not connected throws,
     * which ends the callback with that one message already shifted out.
     */
    method Drain(svc: ChatService, ids: seq<string>) returns (r: Result<()>)
      requires svc.Valid() && |ids| >= |queue|
      modifies this, svc`sent
      ensures r.Ok? <==> old(queue) == [] || (svc.isConnected && svc.HasUser())
      ensures r.Ok? ==> queue == [] && svc.sent == old(svc.sent) + (if old(queue) == [] then [] else DrainFrames(old(queue), svc.userId.value, ids))
      ensures r.Err? ==> queue == old(queue)[1..] && svc.sent == old(svc.sent) && r.error == "Not connected"
    {
      var i := 0;
      ghost var q0 := queue;
      ghost var from := if svc.userId.Some? then svc.userId.value else "";
      while |queue| > 0
        invariant 0 <= i <= |q0| && queue == q0[i..]
        invariant svc.isConnected == old(svc.isConnected) && svc.userId == old(svc.userId)
        invariant svc.hasSocket == old(svc.hasSocket) && svc.Valid()
        invariant i > 0 ==> svc.isConnected && svc.HasUser()
        invariant svc.sent == old(svc.sent) + DrainFrames(q0[..i], from, ids)
        decreases |queue|
      {
        var q := queue[0];
        queue := queue[1..];
        var sent := SendQueued(svc, q, ids[i]);
        if sent.Err? {
          return Err(sent.error);
        }
        assert q0[..i + 1][..i] == q0[..i] && q0[i] == q && svc.userId.value == from;
        assert DrainFrames(q0[..i + 1], from, ids) == DrainFrames(q0[..i], from, ids) + [QueuedFrame(q, from, ids[i])];
        i := i + 1;
      }
      assert q0[..i] == q0;
      r := Ok(());
    }
  }
}

/**
 * The zustand chat store of `src/store/chatStore.ts` and its connection
 * wrapper `WebSocketConnection`.
 *
 * The store actions rebuild the state record; here they are functions on
 * `ChatState`. The connection wrapper mutates its socket and its callback
 * dictionary in place; here it is a class. `Date.now()` and `new Date()` are
 * the parameter `now` (milliseconds), and a socket is a number with a flag
 * telling whether its `readyState` is OPEN.
 */
module ChatStore {
  import opened Strings

  datatype User = User(id: string, name: string, avatar: string, online: bool)

  /** A stored message; ids and timestamps are milliseconds. */
  datatype Message = Message(id: int, content: string, sender: string, timestamp: int)

  /** The fixed `otherUsers` table, also the initial `users`. */
  const OtherUsers: seq<User> := [
    User("user1", "Alice", "A", true),
    User("user2", "Bob", "B", true),
    User("user3", "Charlie", "C", false)
  ]

  datatype ChatState = ChatState(
    currentUser: Option<string>,
    activeChat: Option<User>,
    users: seq<User>,
    messages: map<string, seq<Message>>,
    hasSocket: bool)

  const InitialState: ChatState := ChatState(None, None, OtherUsers, map[], false)

  /** `[...(messages[key] || []), m]` stored under `key`. */
  function Append(messages: map<string, seq<Message>>, key: string, m: Message): (r: map<string, seq<Message>>)
    ensures r.Keys == messages.Keys + {key}
    ensures r[key] == (if key in messages then messages[key] else []) + [m]
    ensures forall k :: k in messages && k != key ==> r[k] == messages[k]
  {
    messages[key := (if key in messages then messages[key] else []) + [m]]
  }

  /** `receiveMessage(userId, content)`. */
  function ReceiveMessage(st: ChatState, userId: string, content: string, now: int): ChatState {
    st.(messages := Append(st.messages, userId, Message(now, content, userId, now)))
  }

  /** `users.map(u => u.id === userId ? {...u, online} : u)`. */
  function SetOnline(users: seq<User>, userId: string, online: bool): (r: seq<User>)
    ensures |r| == |users|
  {
    if users == [] then []
    else [if users[0].id == userId then users[0].(online := online) else users[0]]
         + SetOnline(users[1..], userId, online)
  }

  /** `updateUserStatus(userId, online)`; the `userStatus` listener does the same with the frame's fields. */
  function UpdateUserStatus(st: ChatState, userId: string, online: bool): ChatState {
    st.(users := SetOnline(st.users, userId, online))
  }

  /** `otherUsers.find(u => u.id === userId)`. */
  function FindOther(users: seq<User>, userId: string): (r: Option<User>)
    ensures r.Some? ==> r.value in users && r.value.id == userId
    ensures r.None? ==> forall u :: u in users ==> u.id != userId
  {
    if users == [] then None
    else if users[0].id == userId then Some(users[0])
    else FindOther(users[1..], userId)
  }

  /** `selectChat(userId)`: only ids of the fixed table are selectable, with that table's record. */
  function SelectChat(st: ChatState, userId: string): ChatState {
    match FindOther(OtherUsers, userId)
    case Some(u) => st.(activeChat := Some(u))
    case None => st
  }

  /** `!state.currentUser` is true for null and for "". */
  predicate HasCurrentUser(st: ChatState) {
    st.currentUser.Some? && st.currentUser.value != ""
  }

  /** The frames the store hands to `wsConnection.send`. */
  datatype StoreFrame =
    | LoginFrame(userId: string)
    | MessageFrame(from: string, to: string, content: string, messageId: int)

  /** The state update of `sendMessage(content)`, and the frame it then sends. */
  function SendMessageState(st: ChatState, content: string, now: int): (ChatState, Option<StoreFrame>) {
    if st.activeChat.None? || !HasCurrentUser(st) then (st, None)
    else
      var to := st.activeChat.value.id;
      var me := st.currentUser.value;
      (st.(messages := Append(st.messages, to, Message(now, content, me, now))),
       Some(MessageFrame(me, to, content, now)))
  }

  /** The `message` listener: append only when the frame comes from the active chat. */
  function OnIncomingMessage(st: ChatState, from: string, content: string, timestamp: int, now: int): ChatState {
    if st.activeChat.Some? && st.activeChat.value.id == from then
      st.(messages := Append(st.messages, from, Message(now, content, from, timestamp)))
    else st
  }

  /** The state part of `login(username)`. */
  function LoginState(st: ChatState, username: string): ChatState {
    st.(currentUser := Some(username), hasSocket := true)
  }

  /** The state part of `logout()`. */
  function LogoutState(st: ChatState): ChatState {
    st.(currentUser := None, activeChat := None, messages := map[], hasSocket := false)
  }

  // ---------------------------------------------------------------------------
  // Properties of the store actions
  // ---------------------------------------------------------------------------

  /** `receiveMessage` appends exactly one message sent by `userId` to that user's list and changes nothing else. */
  lemma ReceiveAppendsOne(st: ChatState, userId: string, content: string, now: int)
    ensures var st' := ReceiveMessage(st, userId, content, now);
      && userId in st'.messages
      && st'.messages[userId] == (if userId in st.messages then st.messages[userId] else []) + [Message(now, content, userId, now)]
      && (forall k :: k != userId ==> (k in st'.messages <==> k in st.messages))
      && (forall k :: k in st.messages && k != userId ==> st'.messages[k] == st.messages[k])
      && st'.currentUser == st.currentUser && st'.activeChat == st.activeChat && st'.users == st.users
  {
  }

  /**
   * A status update changes only the `online` flag, and only of the users
   * with that id; length and order are kept.
   */
  lemma {:induction false} SetOnlineOnlyFlag(users: seq<User>, userId: string, online: bool)
    ensures var r := SetOnline(users, userId, online);
      forall i :: 0 <= i < |users| ==>
        r[i] == (if users[i].id == userId then users[i].(online := online) else users[i])
  {
    if users != [] {
      SetOnlineOnlyFlag(users[1..], userId, online);
      var r := SetOnline(users, userId, online);
      assert r[1..] == SetOnline(users[1..], userId, online);
    }
  }

  /** A second identical status update changes nothing more. */
  lemma SetOnlineIdempotent(users: seq<User>, userId: string, online: bool)
    ensures SetOnline(SetOnline(users, userId, online), userId, online) == SetOnline(users, userId, online)
  {
    var r := SetOnline(users, userId, online);
    SetOnlineOnlyFlag(users, userId, online);
    SetOnlineOnlyFlag(r, userId, online);
  }

  /** `sendMessage` does nothing without an active chat or a truthy current user. */
  lemma SendMessageNeedsChatAndUser(st: ChatState, content: string, now: int)
    requires st.activeChat.None? || !HasCurrentUser(st)
    ensures SendMessageState(st, content, now) == (st, None)
  {
  }

  /**
   * Otherwise it appends one message from the current user to the active
   * chat's list and sends a `message` frame whose id is that message's id.
   */
  lemma SendMessageAppendsAndSends(st: ChatState, content: string, now: int)
    requires st.activeChat.Some? && HasCurrentUser(st)
    ensures var (st', f) := SendMessageState(st, content, now);
      var to := st.activeChat.value.id;
      && f.Some? && f.value.messageId == st'.messages[to][|st'.messages[to]| - 1].id
      && f.value == MessageFrame(st.currentUser.value, to, content, now)
      && st'.messages[to] == (if to in st.messages then st.messages[to] else []) + [Message(now, content, st.currentUser.value, now)]
      && (forall k :: k in st.messages && k != to ==> st'.messages[k] == st.messages[k])
      && st'.users == st.users && st'.activeChat == st.activeChat && st'.currentUser == st.currentUser
  {
  }

  /** `selectChat` picks a user of the fixed table, or changes nothing. */
  lemma SelectChatOnlyKnown(st: ChatState, userId: string)
    ensures var st' := SelectChat(st, userId);
      (exists u :: u in OtherUsers && u.id == userId) ==>
        st'.activeChat.Some? && st'.activeChat.value in OtherUsers && st'.activeChat.value.id == userId &&
        st' == st.(activeChat := st'.activeChat)
    ensures (forall u :: u in OtherUsers ==> u.id != userId) ==> SelectChat(st, userId) == st
  {
  }

  /** A known id is selected with the table's record, whatever `users` says now. */
  lemma SelectChatUsesFixedTable(st: ChatState)
    ensures SelectChat(st, "user3").activeChat == Some(User("user3", "Charlie", "C", false))
    ensures SelectChat(st, "ai-assistant") == st
  {
  }

  /** An incoming message is stored only when it comes from the active chat. */
  lemma IncomingOnlyFromActiveChat(st: ChatState, from: string, content: string, timestamp: int, now: int)
    ensures var st' := OnIncomingMessage(st, from, content, timestamp, now);
      if st.activeChat.Some? && st.activeChat.value.id == from
      then st'.messages[from] == (if from in st.messages then st.messages[from] else []) + [Message(now, content, from, timestamp)]
           && st'.messages.Keys == st.messages.Keys + {from}
           && (forall k :: k in st.messages && k != from ==> st'.messages[k] == st.messages[k])
      else st' == st
  {
  }

  /** `logout` clears the session, keeps `users`; logging in again afterwards starts with no messages. */
  lemma LogoutClears(st: ChatState, username: string)
    ensures var st' := LogoutState(st);
      st'.currentUser.None? && st'.activeChat.None? && st'.messages == map[] && !st'.hasSocket && st'.users == st.users
    ensures LoginState(LogoutState(st), username).messages == map[]
  {
  }

  // ---------------------------------------------------------------------------
  // The connection wrapper
  // ---------------------------------------------------------------------------

  type Callback = nat

  /** What an emitted event passes to its callbacks. */
  datatype EventData =
    | NoData
    | FrameData(kind: string, from: string, content: string, timestamp: int, userId: string, online: bool)
    | ErrorData(text: string)

  datatype Invocation = Invocation(callback: Callback, event: string, data: EventData)

  datatype Socket = Socket(id: nat, isOpen: bool)

  function Calls(cbs: seq<Callback>, event: string, data: EventData): (r: seq<Invocation>)
    ensures |r| == |cbs|
    ensures forall i :: 0 <= i < |cbs| ==> r[i] == Invocation(cbs[i], event, data)
  {
    if cbs == [] then [] else Calls(cbs[..|cbs| - 1], event, data) + [Invocation(cbs[|cbs| - 1], event, data)]
  }

  class WebSocketConnection {
    var socket: Option<Socket>
    var callbacks: map<string, seq<Callback>>
    /** Frames written to an OPEN socket, in order. */
    var transmitted: seq<StoreFrame>
    /** Callback calls made by `emit`, in order. */
    var invoked: seq<Invocation>
    var socketsCreated: nat
    /** Reconnect timers armed by `onclose` and not fired yet. */
    var pendingReconnects: nat

    /** The private constructor: no socket, no callbacks. */
    constructor ()
      ensures socket == None && callbacks == map[] && transmitted == [] && invoked == []
      ensures socketsCreated == 0 && pendingReconnects == 0
    {
      socket, callbacks, transmitted, invoked := None, map[], [], [];
      socketsCreated, pendingReconnects := 0, 0;
    }

    predicate IsOpen()
      reads this
    {
      socket.Some? && socket.value.isOpen
    }

    /** `connect()`: keep an OPEN socket, otherwise create a new one (CONNECTING). */
    method Connect() returns (s: Socket)
      modifies this`socket, this`socketsCreated
      ensures old(IsOpen()) ==> s == old(socket.value) && socket == old(socket) && socketsCreated == old(socketsCreated)
      ensures !old(IsOpen()) ==> s == Socket(old(socketsCreated), false) && socket == Some(s) &&
                                 socketsCreated == old(socketsCreated) + 1
    {
      if IsOpen() {
        return socket.value;
      }
      s := Socket(socketsCreated, false);
      socket := Some(s);
      socketsCreated := socketsCreated + 1;
    }

    /** `on(event, callback)`: create the list if absent, then append. */
    method On(event: string, cb: Callback)
      modifies this`callbacks
      ensures callbacks == old(callbacks)[event := (if event in old(callbacks) then old(callbacks)[event] else []) + [cb]]
    {
      if event !in callbacks {
        callbacks := callbacks[event := []];
      }
      callbacks := callbacks[event := callbacks[event] + [cb]];
    }

    /** `emit(event, ...args)`: the callbacks of that event, in registration order. */
    method Emit(event: string, data: EventData)
      modifies this`invoked
      ensures invoked == old(invoked) + Calls(if event in callbacks then callbacks[event] else [], event, data)
    {
      var cbs := if event in callbacks then callbacks[event] else [];
      var i := 0;
      while i < |cbs|
        invariant 0 <= i <= |cbs|
        invariant invoked == old(invoked) + Calls(cbs[..i], event, data)
      {
        assert cbs[..i + 1][..i] == cbs[..i];
        invoked := invoked + [Invocation(cbs[i], event, data)];
        i := i + 1;
      }
      assert cbs[..i] == cbs;
    }

    /** `send(data)`: write to an OPEN socket; otherwise transmit nothing and call `connect`. */
    method Send(f: StoreFrame)
      modifies this`transmitted, this`socket, this`socketsCreated
      ensures old(IsOpen()) ==>
        transmitted == old(transmitted) + [f] && socket == old(socket) && socketsCreated == old(socketsCreated)
      ensures !old(IsOpen()) ==>
        transmitted == old(transmitted) && socket == Some(Socket(old(socketsCreated), false)) &&
        socketsCreated == old(socketsCreated) + 1
    {
      if IsOpen() {
        transmitted := transmitted + [f];
      } else {
        var _ := Connect();
      }
    }

    /** `close()`. */
    method Close()
      modifies this`socket
      ensures socket == None
    {
      if socket.Some? {
        socket := None;
      }
    }

    /** The socket's `onopen`: it is OPEN now, and `open` is emitted. */
    method OnOpen()
      requires socket.Some?
      modifies this`socket, this`invoked
      ensures IsOpen() && socket.value.id == old(socket.value.id)
      ensures invoked == old(invoked) + Calls(if "open" in callbacks then callbacks["open"] else [], "open", NoData)
    {
      socket := Some(socket.value.(isOpen := true));
      Emit("open", NoData);
    }

    /** The socket's `onmessage`: the frame is emitted under its own `type`. */
    method OnMessage(data: EventData)
      requires data.FrameData?
      modifies this`invoked
      ensures invoked == old(invoked) + Calls(if data.kind in callbacks then callbacks[data.kind] else [], data.kind, data)
    {
      Emit(data.kind, data);
    }

    /** The socket's `onclose`: drop the socket, emit `close`, arm a reconnect timer (there is no cap). */
    method OnClose()
      modifies this`socket, this`invoked, this`pendingReconnects
      ensures socket == None && pendingReconnects == old(pendingReconnects) + 1
      ensures invoked == old(invoked) + Calls(if "close" in callbacks then callbacks["close"] else [], "close", NoData)
    {
      socket := None;
      Emit("close", NoData);
      pendingReconnects := pendingReconnects + 1;
    }

    /** The socket's `onerror`: `error` is emitted with the error. */
    method OnError(text: string)
      modifies this`invoked
      ensures invoked == old(invoked) + Calls(if "error" in callbacks then callbacks["error"] else [], "error", ErrorData(text))
    {
      Emit("error", ErrorData(text));
    }

    /** One reconnect timer fires and calls `connect`. */
    method ReconnectTimerFires()
      requires pendingReconnects > 0
      modifies this`socket, this`socketsCreated, this`pendingReconnects
      ensures pendingReconnects == old(pendingReconnects) - 1
      ensures !old(IsOpen()) ==> socket == Some(Socket(old(socketsCreated), false)) && socketsCreated == old(socketsCreated) + 1
      ensures old(IsOpen()) ==> socket == old(socket) && socketsCreated == old(socketsCreated)
    {
      pendingReconnects := pendingReconnects - 1;
      var _ := Connect();
    }
  }

  /** The static `instance` slot of `WebSocketConnection`. */
  class ConnectionSingleton {
    var instance: WebSocketConnection?

    constructor ()
      ensures instance == null
    {
      instance := null;
    }

    /** `getInstance()`: create the wrapper on first use, return the same one afterwards. */
    method GetInstance() returns (c: WebSocketConnection)
      modifies this
      ensures old(instance) != null ==> c == old(instance)
      ensures old(instance) == null ==>
        fresh(c) && c.socket == None && c.callbacks == map[] && c.transmitted == [] && c.socketsCreated == 0
      ensures instance == c
    {
      if instance == null {
        instance := new WebSocketConnection();
      }
      c := instance;
    }
  }

  /** The listener ids the store registers when it is created. */
  const MessageListener: Callback := 0
  const StatusListener: Callback := 1

  /** The store: its state record and the connection it talks through. */
  class Store {
    var state: ChatState
    const conn: WebSocketConnection

    /** Creating the store registers the `message` and `userStatus` listeners. */
    constructor (c: WebSocketConnection)
      modifies c`callbacks
      ensures state == InitialState && conn == c
      ensures c.callbacks == old(c.callbacks)
        ["message" := (if "message" in old(c.callbacks) then old(c.callbacks)["message"] else []) + [MessageListener]]
        ["userStatus" := (if "userStatus" in old(c.callbacks) then old(c.callbacks)["userStatus"] else []) + [StatusListener]]
    {
      state := InitialState;
      conn := c;
      new;
      c.On("message", MessageListener);
      c.On("userStatus", StatusListener);
    }

    /** `login(username)`: connect, send the `login` frame, record the user and the socket. */
    method Login(username: string)
      modifies this`state, conn`socket, conn`socketsCreated, conn`transmitted
      ensures state == LoginState(old(state), username)
      ensures old(conn.IsOpen()) ==> conn.transmitted == old(conn.transmitted) + [LoginFrame(username)]
      ensures old(conn.IsOpen()) ==> conn.socket == old(conn.socket) && conn.socketsCreated == old(conn.socketsCreated)
      ensures !old(conn.IsOpen()) ==>
        && conn.transmitted == old(conn.transmitted) && conn.socketsCreated == old(conn.socketsCreated) + 2
        && conn.socket == Some(Socket(old(conn.socketsCreated) + 1, false))
    {
      var _ := conn.Connect();
      conn.Send(LoginFrame(username));
      state := LoginState(state, username);
    }

    /** `logout()`. */
    method Logout()
      modifies this`state, conn`socket
      ensures state == LogoutState(old(state)) && conn.socket == None
    {
      conn.Close();
      state := LogoutState(state);
    }

    /** The `message` listener registered by the constructor, once `emit` calls it with a frame. */
    method OnMessageEvent(from: string, content: string, timestamp: int, now: int)
      modifies this`state
      ensures state == OnIncomingMessage(old(state), from, content, timestamp, now)
    {
      state := OnIncomingMessage(state, from, content, timestamp, now);
    }

    /** The `userStatus` listener registered by the constructor, once `emit` calls it with a frame. */
    method OnStatusEvent(userId: string, online: bool)
      modifies this`state
      ensures state == old(state).(users := SetOnline(old(state).users, userId, online))
    {
      state := state.(users := SetOnline(state.users, userId, online));
    }

    /** `sendMessage(content)`: update the state, then send the frame, if any. */
    method SendMessage(content: string, now: int)
      modifies this`state, conn`socket, conn`socketsCreated, conn`transmitted
      ensures state == SendMessageState(old(state), content, now).0
      ensures var f := SendMessageState(old(state), content, now).1;
        if f.Some? && old(conn.IsOpen()) then conn.transmitted == old(conn.transmitted) + [f.value]
        else conn.transmitted == old(conn.transmitted)
      ensures var f := SendMessageState(old(state), content, now).1;
        if f.Some? && !old(conn.IsOpen())
        then conn.socket == Some(Socket(old(conn.socketsCreated), false)) && conn.socketsCreated == old(conn.socketsCreated) + 1
        else conn.socket == old(conn.socket) && conn.socketsCreated == old(conn.socketsCreated)
    {
      var (st, f) := SendMessageState(state, content, now);
      state := st;
      if f.Some? {
        conn.Send(f.value);
      }
    }
  }

  /**
   * The first `login` on a fresh connection transmits nothing: `connect`
   * returns a socket that is still CONNECTING, so `send` takes its
   * not-OPEN branch and creates a second socket instead.
   */
  method FirstLoginSendsNoFrame() returns (transmitted: seq<StoreFrame>, sockets: nat)
    ensures transmitted == [] && sockets == 2
  {
    var holder := new ConnectionSingleton();
    var c := holder.GetInstance();
    var store := new Store(c);
    store.Login("alice");
    transmitted, sockets := c.transmitted, c.socketsCreated;
  }
}

/**
 * The client connection object `ChatService` of `src/services/chatService.ts`:
 * connect/disconnect flags, the reconnect policy capped at five attempts, the
 * "Not connected" guards of the send methods, the dispatch of incoming frames
 * by their `type` to callback lists, and subscribe/unsubscribe.
 *
 * The socket's events (`onopen`, `onclose`, `onerror`, `onmessage`) and the
 * reconnect timer firing are methods the environment calls. The frames passed
 * to `socket.send` and the callbacks invoked are recorded in two logs.
 */
module ChatClient {
  import opened Strings

  const MaxReconnectAttempts: nat := 5

  /** Identity of a callback function (JavaScript compares them by reference). */
  type Callback = nat

  /** The seven callback lists of the service. */
  datatype Channel =
    | MessageChannel | StatusChannel | RoomChannel | RoomsListChannel
    | ErrorChannel | ConnectChannel | DisconnectChannel

  /** What the service hands to `socket.send`. */
  datatype ClientFrame =
    | LoginFrame(userId: string)
    | PrivateMessageFrame(from: string, to: string, content: string, id: string)
    | RoomMessageFrame(from: string, roomId: string, content: string, id: string)
    | JoinRoomFrame(roomId: string, userId: string)
    | LeaveRoomFrame(roomId: string, userId: string)
    | CreateRoomFrame(name: string, description: string, userId: string)
    | GetRoomsFrame

  /** A decoded server frame; `room` and `rooms` stand for the JSON values they carry. */
  datatype ServerFrame = ServerFrame(kind: string, userId: string, online: bool, room: string, rooms: string, message: string)

  /** The arguments a callback is called with. */
  datatype CallbackArg =
    | FrameArg(frame: ServerFrame)
    | StatusArgs(userId: string, online: bool)
    | RoomArg(room: string)
    | RoomsArg(rooms: string)
    | ErrorArg(message: string)
    | NoArg

  datatype Invocation = Invocation(callback: Callback, arg: CallbackArg)

  /** The list `handleMessage` chooses for a frame type; unknown types get none. */
  function ChannelFor(kind: string): (r: Option<Channel>)
    ensures r.Some? <==> kind in ["private_message", "room_message", "system_notification",
                                  "userStatus", "room_created", "new_room", "rooms_list", "error"]
    ensures r == Some(MessageChannel) <==> kind in ["private_message", "room_message", "system_notification"]
    ensures r == Some(RoomChannel) <==> kind in ["room_created", "new_room"]
    ensures r == Some(StatusChannel) <==> kind == "userStatus"
    ensures r == Some(RoomsListChannel) <==> kind == "rooms_list"
    ensures r == Some(ErrorChannel) <==> kind == "error"
    ensures r != Some(ConnectChannel) && r != Some(DisconnectChannel)
  {
    if kind == "private_message" || kind == "room_message" || kind == "system_notification" then Some(MessageChannel)
    else if kind == "userStatus" then Some(StatusChannel)
    else if kind == "room_created" || kind == "new_room" then Some(RoomChannel)
    else if kind == "rooms_list" then Some(RoomsListChannel)
    else if kind == "error" then Some(ErrorChannel)
    else None
  }

  /** The argument each list's callbacks receive for a frame. */
  function ArgFor(ch: Channel, f: ServerFrame): CallbackArg {
    match ch
    case MessageChannel => FrameArg(f)
    case StatusChannel => StatusArgs(f.userId, f.online)
    case RoomChannel => RoomArg(f.room)
    case RoomsListChannel => RoomsArg(f.rooms)
    case ErrorChannel => ErrorArg(f.message)
    case _ => NoArg
  }

  /** `callbacks.forEach(cb => cb(arg))`, as a log of calls. */
  function Calls(cbs: seq<Callback>, arg: CallbackArg): (r: seq<Invocation>)
    ensures |r| == |cbs|
    ensures forall i :: 0 <= i < |cbs| ==> r[i] == Invocation(cbs[i], arg)
  {
    if cbs == [] then [] else Calls(cbs[..|cbs| - 1], arg) + [Invocation(cbs[|cbs| - 1], arg)]
  }

  /** `callbacks.filter(cb => cb !== callback)`. */
  function Without(cbs: seq<Callback>, cb: Callback): (r: seq<Callback>)
    decreases |cbs|
  {
    if cbs == [] then []
    else if cbs[|cbs| - 1] == cb then Without(cbs[..|cbs| - 1], cb)
    else Without(cbs[..|cbs| - 1], cb) + [cbs[|cbs| - 1]]
  }

  /**
   * Unsubscribing removes every registration of that callback and keeps every
   * other callback, as often as before.
   */
  lemma {:induction false} WithoutRemovesOnlyThat(cbs: seq<Callback>, cb: Callback)
    ensures cb !in Without(cbs, cb)
    ensures forall x :: x != cb ==> multiset(Without(cbs, cb))[x] == multiset(cbs)[x]
  {
    if cbs != [] {
      var init := cbs[..|cbs| - 1];
      WithoutRemovesOnlyThat(init, cb);
      assert cbs == init + [cbs[|cbs| - 1]];
    }
  }

  /**
   * Unsubscribing works piecewise, so the callbacks that stay keep their
   * relative order: with `Without([x], cb)` being `[x]` for every other `x`,
   * this determines the new list completely.
   */
  lemma {:induction false} WithoutDistributes(a: seq<Callback>, b: seq<Callback>, cb: Callback)
    ensures Without(a + b, cb) == Without(a, cb) + Without(b, cb)
    decreases |b|
  {
    if b == [] {
      assert a + b == a;
    } else {
      var ab := a + b;
      assert ab[..|ab| - 1] == a + b[..|b| - 1];
      assert ab[|ab| - 1] == b[|b| - 1];
      WithoutDistributes(a, b[..|b| - 1], cb);
    }
  }

  /** Subscribing a callback that was not registered and then unsubscribing it restores the list. */
  lemma {:induction false} SubscribeThenUnsubscribe(cbs: seq<Callback>, cb: Callback)
    requires cb !in cbs
    ensures Without(cbs + [cb], cb) == cbs
  {
    var s := cbs + [cb];
    assert s[..|s| - 1] == cbs;
    WithoutAbsent(cbs, cb);
  }

  lemma {:induction false} WithoutAbsent(cbs: seq<Callback>, cb: Callback)
    requires cb !in cbs
    ensures Without(cbs, cb) == cbs
  {
    if cbs != [] {
      WithoutAbsent(cbs[..|cbs| - 1], cb);
    }
  }

  // ---------------------------------------------------------------------------
  // The reconnect policy, on its own
  // ---------------------------------------------------------------------------

  /** The two fields the reconnect policy reads and writes. */
  datatype Policy = Policy(timerPending: bool, attempts: nat)

  /** `tryReconnect`: nothing while a timer is pending or at the cap, else one more attempt and one armed timer. */
  function TryReconnectStep(p: Policy): Policy {
    if p.timerPending || p.attempts >= MaxReconnectAttempts then p
    else Policy(true, p.attempts + 1)
  }

  /** The events that move the policy. */
  datatype PolicyEvent = SocketClosed | TimerFired | SocketOpened | Disconnected

  function PolicyStep(p: Policy, e: PolicyEvent): Policy {
    match e
    case SocketClosed => TryReconnectStep(p)
    case TimerFired => p.(timerPending := false)
    case SocketOpened => p.(attempts := 0)
    case Disconnected => p.(timerPending := false)
  }

  function PolicyRun(p: Policy, es: seq<PolicyEvent>): Policy
    decreases |es|
  {
    if es == [] then p else PolicyRun(PolicyStep(p, es[0]), es[1..])
  }

  /** How many of the events arm a reconnect timer. */
  function TimersArmed(p: Policy, es: seq<PolicyEvent>): nat
    decreases |es|
  {
    if es == [] then 0
    else (if PolicyStep(p, es[0]).attempts > p.attempts then 1 else 0) + TimersArmed(PolicyStep(p, es[0]), es[1..])
  }

  /** The attempt counter never passes the cap, whatever the events. */
  lemma {:induction false} AttemptsNeverExceedCap(p: Policy, es: seq<PolicyEvent>)
    requires p.attempts <= MaxReconnectAttempts
    ensures PolicyRun(p, es).attempts <= MaxReconnectAttempts
    decreases |es|
  {
    if es != [] {
      AttemptsNeverExceedCap(PolicyStep(p, es[0]), es[1..]);
    }
  }

  /**
   * Without a successful open in between, at most five reconnect timers are
   * armed in all, however often the socket closes; each one adds exactly one attempt.
   */
  lemma {:induction false} AtMostFiveRetriesWithoutOpen(p: Policy, es: seq<PolicyEvent>)
    requires p.attempts <= MaxReconnectAttempts
    requires SocketOpened !in es
    ensures PolicyRun(p, es).attempts == p.attempts + TimersArmed(p, es)
    ensures TimersArmed(p, es) <= MaxReconnectAttempts - p.attempts
    decreases |es|
  {
    if es != [] {
      assert es[0] != SocketOpened;
      assert forall e :: e in es[1..] ==> e in es;
      AtMostFiveRetriesWithoutOpen(PolicyStep(p, es[0]), es[1..]);
    }
  }

  // ---------------------------------------------------------------------------
  // The service object
  // ---------------------------------------------------------------------------

  class ChatService {
    var hasSocket: bool
    var isConnected: bool
    var callbacks: map<Channel, seq<Callback>>
    var userId: Option<string>
    var reconnectTimer: bool
    var reconnectAttempts: nat
    /** Frames passed to `socket.send`, in order. */
    var sent: seq<ClientFrame>
    /** Callback calls, in order. */
    var invoked: seq<Invocation>
    /** How many sockets `connect` has created, and how many `disconnect` has closed. */
    var socketsCreated: nat
    var socketsClosed: nat

    ghost predicate Valid()
      reads this
    {
      (forall ch: Channel :: ch in callbacks) &&
      (isConnected ==> hasSocket) &&
      reconnectAttempts <= MaxReconnectAttempts
    }

    function PolicyState(): Policy
      reads this
    {
      Policy(reconnectTimer, reconnectAttempts)
    }

    /** `if (!this.userId)` fails for null and for "". */
    predicate HasUser()
      reads this
    {
      userId.Some? && userId.value != ""
    }

    constructor ()
      ensures Valid()
      ensures !hasSocket && !isConnected && userId == None && !reconnectTimer && reconnectAttempts == 0
      ensures sent == [] && invoked == [] && socketsCreated == 0 && socketsClosed == 0
      ensures forall ch: Channel :: ch in callbacks && callbacks[ch] == []
    {
      hasSocket, isConnected, userId := false, false, None;
      reconnectTimer, reconnectAttempts := false, 0;
      sent, invoked := [], [];
      socketsCreated, socketsClosed := 0, 0;
      callbacks := map[MessageChannel := [], StatusChannel := [], RoomChannel := [], RoomsListChannel := [],
                       ErrorChannel := [], ConnectChannel := [], DisconnectChannel := []];
      new;
      forall ch: Channel ensures ch in callbacks {
        match ch {
          case MessageChannel =>
          case StatusChannel =>
          case RoomChannel =>
          case RoomsListChannel =>
          case ErrorChannel =>
          case ConnectChannel =>
          case DisconnectChannel =>
        }
      }
    }

    /** Call every callback of one list with `arg`, in registration order. */
    method Fire(ch: Channel, arg: CallbackArg)
      requires Valid()
      modifies this`invoked
      ensures invoked == old(invoked) + Calls(callbacks[ch], arg)
    {
      var cbs := callbacks[ch];
      var i := 0;
      while i < |cbs|
        invariant 0 <= i <= |cbs|
        invariant invoked == old(invoked) + Calls(cbs[..i], arg)
      {
        assert cbs[..i + 1][..i] == cbs[..i];
        invoked := invoked + [Invocation(cbs[i], arg)];
        i := i + 1;
      }
      assert cbs[..i] == cbs;
    }

    /** `connect(userId)`: disconnect an open socket first, remember the id, create a socket (not yet open). */
    method Connect(u: string)
      requires Valid()
      modifies this
      ensures Valid()
      ensures userId == Some(u) && hasSocket && !isConnected
      ensures socketsCreated == old(socketsCreated) + 1
      ensures old(hasSocket && isConnected) ==> !reconnectTimer && socketsClosed == old(socketsClosed) + 1
      ensures !old(hasSocket && isConnected) ==> reconnectTimer == old(reconnectTimer) && socketsClosed == old(socketsClosed)
      ensures reconnectAttempts == old(reconnectAttempts)
      ensures callbacks == old(callbacks) && sent == old(sent) && invoked == old(invoked)
    {
      if hasSocket && isConnected {
        Disconnect();
      }
      userId := Some(u);
      hasSocket := true;
      socketsCreated := socketsCreated + 1;
    }

    /** `disconnect()`: close and drop the socket, clear a pending timer, forget the user. */
    method Disconnect()
      requires Valid()
      modifies this
      ensures Valid()
      ensures !hasSocket && !isConnected && !reconnectTimer && userId == None
      ensures socketsClosed == old(socketsClosed) + (if old(hasSocket) then 1 else 0)
      ensures reconnectAttempts == old(reconnectAttempts) && socketsCreated == old(socketsCreated)
      ensures callbacks == old(callbacks) && sent == old(sent) && invoked == old(invoked)
    {
      if hasSocket {
        socketsClosed := socketsClosed + 1;
        hasSocket := false;
        isConnected := false;
      }
      if reconnectTimer {
        reconnectTimer := false;
      }
      userId := None;
    }

    /** The private `send`: throws unless there is a socket and it is connected. */
    method Send(f: ClientFrame) returns (r: Result<()>)
      requires Valid()
      modifies this`sent
      ensures r.Ok? <==> hasSocket && isConnected
      ensures r.Err? ==> r.error == "Not connected to WebSocket server"
      ensures sent == if r.Ok? then old(sent) + [f] else old(sent)
    {
      if !hasSocket || !isConnected {
        return Err("Not connected to WebSocket server");
      }
      sent := sent + [f];
      r := Ok(());
    }

    /** The private `login`: sends a `login` frame when connected with a user id. */
    method Login()
      requires Valid()
      modifies this`sent
      ensures sent == if isConnected && HasUser() then old(sent) + [LoginFrame(userId.value)] else old(sent)
    {
      if !isConnected || !HasUser() {
        return;
      }
      var _ := Send(LoginFrame(userId.value));
    }

    /** `socket.onopen`. */
    method OnOpen()
      requires Valid() && hasSocket
      modifies this
      ensures Valid()
      ensures isConnected && reconnectAttempts == 0
      ensures sent == old(sent) + (if HasUser() then [LoginFrame(userId.value)] else [])
      ensures invoked == old(invoked) + Calls(callbacks[ConnectChannel], NoArg)
      ensures hasSocket && userId == old(userId) && reconnectTimer == old(reconnectTimer) && callbacks == old(callbacks)
      ensures socketsCreated == old(socketsCreated) && socketsClosed == old(socketsClosed)
    {
      isConnected := true;
      reconnectAttempts := 0;
      Login();
      Fire(ConnectChannel, NoArg);
    }

    /** `tryReconnect`. */
    method TryReconnect()
      requires Valid()
      modifies this`reconnectTimer, this`reconnectAttempts
      ensures Valid()
      ensures PolicyState() == TryReconnectStep(old(PolicyState()))
    {
      if reconnectTimer || reconnectAttempts >= MaxReconnectAttempts {
        return;
      }
      reconnectAttempts := reconnectAttempts + 1;
      reconnectTimer := true;
    }

    /** `socket.onclose`. */
    method OnClose()
      requires Valid()
      modifies this
      ensures Valid()
      ensures !isConnected
      ensures PolicyState() == TryReconnectStep(old(PolicyState()))
      ensures invoked == old(invoked) + Calls(callbacks[DisconnectChannel], NoArg)
      ensures hasSocket == old(hasSocket) && userId == old(userId) && callbacks == old(callbacks) && sent == old(sent)
      ensures socketsCreated == old(socketsCreated) && socketsClosed == old(socketsClosed)
    {
      isConnected := false;
      Fire(DisconnectChannel, NoArg);
      TryReconnect();
    }

    /** `socket.onerror`: the error callbacks get the error's text. */
    method OnError(text: string)
      requires Valid()
      modifies this`invoked
      ensures invoked == old(invoked) + Calls(callbacks[ErrorChannel], ErrorArg(text))
    {
      Fire(ErrorChannel, ErrorArg(text));
    }

    /** The reconnect timer fires: it clears itself and reconnects only if a user id is still set. */
    method ReconnectTimerFires()
      requires Valid() && reconnectTimer
      modifies this
      ensures Valid()
      ensures old(HasUser()) ==> userId == old(userId) && hasSocket && !isConnected &&
                                 socketsCreated == old(socketsCreated) + 1
      ensures !old(HasUser()) ==> hasSocket == old(hasSocket) && isConnected == old(isConnected) &&
                                  userId == old(userId) && socketsCreated == old(socketsCreated)
      ensures !reconnectTimer && reconnectAttempts == old(reconnectAttempts)
      ensures callbacks == old(callbacks) && sent == old(sent) && invoked == old(invoked)
    {
      reconnectTimer := false;
      if HasUser() {
        Connect(userId.value);
      }
    }

    /** `sendPrivateMessage`: `id` is the fresh uuid. */
    method SendPrivateMessage(to: string, content: string, id: string) returns (r: Result<string>)
      requires Valid()
      modifies this`sent
      ensures r.Ok? <==> isConnected && HasUser()
      ensures r.Err? ==> r.error == "Not connected" && sent == old(sent)
      ensures r.Ok? ==> r.value == id && sent == old(sent) + [PrivateMessageFrame(userId.value, to, content, id)]
    {
      if !isConnected || !HasUser() {
        return Err("Not connected");
      }
      var _ := Send(PrivateMessageFrame(userId.value, to, content, id));
      r := Ok(id);
    }

    /** `sendRoomMessage`: `id` is the fresh uuid. */
    method SendRoomMessage(roomId: string, content: string, id: string) returns (r: Result<string>)
      requires Valid()
      modifies this`sent
      ensures r.Ok? <==> isConnected && HasUser()
      ensures r.Err? ==> r.error == "Not connected" && sent == old(sent)
      ensures r.Ok? ==> r.value == id && sent == old(sent) + [RoomMessageFrame(userId.value, roomId, content, id)]
    {
      if !isConnected || !HasUser() {
        return Err("Not connected");
      }
      var _ := Send(RoomMessageFrame(userId.value, roomId, content, id));
      r := Ok(id);
    }

    method JoinRoom(roomId: string) returns (r: Result<()>)
      requires Valid()
      modifies this`sent
      ensures r.Ok? <==> isConnected && HasUser()
      ensures r.Err? ==> r.error == "Not connected" && sent == old(sent)
      ensures r.Ok? ==> sent == old(sent) + [JoinRoomFrame(roomId, userId.value)]
    {
      if !isConnected || !HasUser() {
        return Err("Not connected");
      }
      r := Send(JoinRoomFrame(roomId, userId.value));
    }

    method LeaveRoom(roomId: string) returns (r: Result<()>)
      requires Valid()
      modifies this`sent
      ensures r.Ok? <==> isConnected && HasUser()
      ensures r.Err? ==> r.error == "Not connected" && sent == old(sent)
      ensures r.Ok? ==> sent == old(sent) + [LeaveRoomFrame(roomId, userId.value)]
    {
      if !isConnected || !HasUser() {
        return Err("Not connected");
      }
      r := Send(LeaveRoomFrame(roomId, userId.value));
    }

    /** `createRoom(name, description = '')`: the caller passes "" for the default. */
    method CreateRoom(name: string, description: string) returns (r: Result<()>)
      requires Valid()
      modifies this`sent
      ensures r.Ok? <==> isConnected && HasUser()
      ensures r.Err? ==> r.error == "Not connected" && sent == old(sent)
      ensures r.Ok? ==> sent == old(sent) + [CreateRoomFrame(name, description, userId.value)]
    {
      if !isConnected || !HasUser() {
        return Err("Not connected");
      }
      r := Send(CreateRoomFrame(name, description, userId.value));
    }

    /** `getRooms` checks only `isConnected`. */
    method GetRooms() returns (r: Result<()>)
      requires Valid()
      modifies this`sent
      ensures r.Ok? <==> isConnected
      ensures r.Err? ==> r.error == "Not connected" && sent == old(sent)
      ensures r.Ok? ==> sent == old(sent) + [GetRoomsFrame]
    {
      if !isConnected {
        return Err("Not connected");
      }
      r := Send(GetRoomsFrame);
    }

    /** `handleMessage`: exactly one list, chosen by `type`, receives the frame; unknown types reach none. */
    method HandleMessage(f: ServerFrame)
      requires Valid()
      modifies this`invoked
      ensures ChannelFor(f.kind).None? ==> invoked == old(invoked)
      ensures ChannelFor(f.kind).Some? ==>
                var ch := ChannelFor(f.kind).value;
                invoked == old(invoked) + Calls(callbacks[ch], ArgFor(ch, f))
    {
      var ch := ChannelFor(f.kind);
      if ch.Some? {
        Fire(ch.value, ArgFor(ch.value, f));
      }
    }

    /** `onMessage`, `onStatusChange`, ...: append the callback to its list. */
    method Subscribe(ch: Channel, cb: Callback)
      requires Valid()
      modifies this`callbacks
      ensures Valid()
      ensures callbacks == old(callbacks)[ch := old(callbacks)[ch] + [cb]]
    {
      callbacks := callbacks[ch := callbacks[ch] + [cb]];
    }

    /** The function an `on*` call returns: drop that callback from its list. */
    method Unsubscribe(ch: Channel, cb: Callback)
      requires Valid()
      modifies this`callbacks
      ensures Valid()
      ensures callbacks == old(callbacks)[ch := Without(old(callbacks)[ch], cb)]
    {
      callbacks := callbacks[ch := Without(callbacks[ch], cb)];
    }
  }
}

/**
 * The WebSocket relay of `server.js`: a process-wide `clients` map from user
 * id to connection, one `userId` variable per connection, and three event
 * handlers (a `login` frame, a `message` frame, and the close of a
 * connection). Connections are numbered; a connection is OPEN until it
 * closes. Every frame the relay hands to a connection's `send` is recorded,
 * in order, in a delivery log.
 *
 * The pure part (`RelayState` and the step functions) is the specification;
 * the class `RelayServer` updates its fields in place as the JavaScript does
 * and is proved to follow the step functions.
 */
module Relay {
  import opened Strings
  import opened MapOrder

  type ConnId = nat

  /** A decoded inbound frame, told apart by its `type` field. */
  datatype Inbound =
    | Login(userId: string)
    | ChatMessage(to: string, from: string, content: string)
    | OtherFrame(kind: string)

  /** An outbound frame. */
  datatype Outbound =
    | UserStatus(userId: string, online: bool)
    | Forwarded(from: string, content: string, timestamp: string)

  datatype Delivery = Delivery(conn: ConnId, frame: Outbound)

  /**
   * `keys` lists the keys of the JavaScript `Map` in insertion order, which is
   * the order `forEach` visits them; `clients` gives the bound connection.
   */
  datatype RelayState = RelayState(
    keys: seq<string>,
    clients: map<string, ConnId>,
    open: set<ConnId>,
    session: map<ConnId, string>,
    sent: seq<Delivery>)

  ghost predicate WellFormed(st: RelayState) {
    Distinct(st.keys) && (forall k :: k in st.keys <==> k in st.clients)
  }

  /** JavaScript truthiness of the per-connection `userId`: null and "" are false. */
  predicate LoggedIn(session: map<ConnId, string>, c: ConnId) {
    c in session && session[c] != ""
  }

  /**
   * The frames `broadcastUserStatus` sends: one per key of the map, in key
   * order, to the bound connection when it is OPEN.
   */
  function Fanout(keys: seq<string>, clients: map<string, ConnId>, open: set<ConnId>, f: Outbound): seq<Delivery>
    requires forall k :: k in keys ==> k in clients
  {
    if keys == [] then []
    else
      var last := keys[|keys| - 1];
      Fanout(keys[..|keys| - 1], clients, open, f)
        + (if clients[last] in open then [Delivery(clients[last], f)] else [])
  }

  /** The handler for a `login` frame arriving on connection `c`. */
  function OnLogin(st: RelayState, c: ConnId, u: string): RelayState
    requires WellFormed(st)
  {
    var keys := SetKey(st.keys, u);
    var clients := st.clients[u := c];
    RelayState(keys, clients, st.open, st.session[c := u],
               st.sent + Fanout(keys, clients, st.open, UserStatus(u, true)))
  }

  /** The handler for a `message` frame: forward to `to` when it is bound and OPEN. */
  function OnMessage(st: RelayState, to: string, from: string, content: string, now: string): RelayState {
    if to in st.clients && st.clients[to] in st.open then
      st.(sent := st.sent + [Delivery(st.clients[to], Forwarded(from, content, now))])
    else st
  }

  /** Any inbound frame on connection `c`; `now` is the send-time timestamp. */
  function OnFrame(st: RelayState, c: ConnId, f: Inbound, now: string): RelayState
    requires WellFormed(st)
  {
    match f
    case Login(u) => OnLogin(st, c, u)
    case ChatMessage(to, from, content) => OnMessage(st, to, from, content, now)
    case OtherFrame(_) => st
  }

  /**
   * The close of connection `c`: it is no longer OPEN; if its `userId` is set,
   * that key is deleted whatever connection it is bound to now, and the offline
   * status goes to the remaining OPEN connections.
   */
  function OnClose(st: RelayState, c: ConnId): RelayState
    requires WellFormed(st)
  {
    var open := st.open - {c};
    if LoggedIn(st.session, c) then
      var u := st.session[c];
      var keys := DeleteKey(st.keys, u);
      var clients := st.clients - {u};
      RelayState(keys, clients, open, st.session,
                 st.sent + Fanout(keys, clients, open, UserStatus(u, false)))
    else st.(open := open)
  }

  // ---------------------------------------------------------------------------
  // Properties of the specification
  // ---------------------------------------------------------------------------

  /** Every step keeps the key order and the map in agreement. */
  lemma StepsPreserveWellFormed(st: RelayState, c: ConnId, f: Inbound, now: string)
    requires WellFormed(st)
    ensures WellFormed(OnFrame(st, c, f, now))
    ensures WellFormed(OnClose(st, c))
  {
    if LoggedIn(st.session, c) {
      DeleteKeyDistinct(st.keys, st.session[c]);
    }
  }

  /**
   * A delivery is in the broadcast exactly when some key is bound to its
   * connection, that connection is OPEN, and the frame is the status frame.
   */
  lemma {:induction false} FanoutMembers(keys: seq<string>, clients: map<string, ConnId>, open: set<ConnId>, f: Outbound, d: Delivery)
    requires forall k :: k in keys ==> k in clients
    ensures d in Fanout(keys, clients, open, f) <==>
            d.frame == f && d.conn in open && exists k :: k in keys && clients[k] == d.conn
  {
    if keys != [] {
      var init := keys[..|keys| - 1];
      var last := keys[|keys| - 1];
      FanoutMembers(init, clients, open, f, d);
      assert keys == init + [last];
      if d.frame == f && d.conn in open && exists k :: k in keys && clients[k] == d.conn {
        var k :| k in keys && clients[k] == d.conn;
        if k != last {
          assert k in init;
        }
      }
    }
  }

  /** The broadcast sends at most one frame per key. */
  lemma {:induction false} FanoutLength(keys: seq<string>, clients: map<string, ConnId>, open: set<ConnId>, f: Outbound)
    requires forall k :: k in keys ==> k in clients
    ensures |Fanout(keys, clients, open, f)| <= |keys|
  {
    if keys != [] {
      FanoutLength(keys[..|keys| - 1], clients, open, f);
    }
  }

  /** A login binds the id to the sending connection, replacing any earlier binding, and records the id for the connection. */
  lemma LoginBinds(st: RelayState, c: ConnId, u: string)
    requires WellFormed(st)
    ensures var st' := OnLogin(st, c, u);
      && u in st'.clients && st'.clients[u] == c
      && (forall k :: k != u ==> (k in st'.clients <==> k in st.clients))
      && (forall k :: k in st.clients && k != u ==> st'.clients[k] == st.clients[k])
      && st'.keys == (if u in st.keys then st.keys else st.keys + [u])
      && c in st'.session && st'.session[c] == u
      && (forall d :: d in st.session && d != c ==> d in st'.session && st'.session[d] == st.session[d])
      && st'.open == st.open
    ensures WellFormed(OnLogin(st, c, u))
  {
  }

  /**
   * After a login every OPEN bound connection, the new one included when it
   * is OPEN, is sent `userStatus{online: true}`, and nothing else is sent.
   */
  lemma LoginBroadcasts(st: RelayState, c: ConnId, u: string, d: Delivery)
    requires WellFormed(st)
    ensures var st' := OnLogin(st, c, u);
      && |st'.sent| >= |st.sent| && st'.sent[..|st.sent|] == st.sent
      && (d in st'.sent[|st.sent|..] <==>
            d.frame == UserStatus(u, true) && d.conn in st.open &&
            exists k :: k in st'.clients && st'.clients[k] == d.conn)
    ensures c in st.open ==> Delivery(c, UserStatus(u, true)) in OnLogin(st, c, u).sent[|st.sent|..]
  {
    var st' := OnLogin(st, c, u);
    var fan := Fanout(st'.keys, st'.clients, st.open, UserStatus(u, true));
    assert st'.sent == st.sent + fan;
    assert st'.sent[|st.sent|..] == fan;
    FanoutMembers(st'.keys, st'.clients, st.open, UserStatus(u, true), d);
    FanoutMembers(st'.keys, st'.clients, st.open, UserStatus(u, true), Delivery(c, UserStatus(u, true)));
    assert st'.clients[u] == c;
  }

  /** A `message` frame is forwarded, to the bound connection only, exactly when its target is bound and OPEN. */
  lemma MessageForwarding(st: RelayState, c: ConnId, to: string, from: string, content: string, now: string)
    requires WellFormed(st)
    ensures var st' := OnFrame(st, c, ChatMessage(to, from, content), now);
      && st'.keys == st.keys && st'.clients == st.clients && st'.open == st.open && st'.session == st.session
      && (if to in st.clients && st.clients[to] in st.open
          then st'.sent == st.sent + [Delivery(st.clients[to], Forwarded(from, content, now))]
          else st'.sent == st.sent)
  {
  }

  /** Frames of any other type change nothing and send nothing. */
  lemma OtherFramesIgnored(st: RelayState, c: ConnId, kind: string, now: string)
    requires WellFormed(st)
    ensures OnFrame(st, c, OtherFrame(kind), now) == st
  {
  }

  /** Closing a connection that never logged in only marks it closed, and sends nothing. */
  lemma CloseWithoutLogin(st: RelayState, c: ConnId)
    requires WellFormed(st)
    requires !LoggedIn(st.session, c)
    ensures OnClose(st, c) == st.(open := st.open - {c})
  {
  }

  /**
   * Closing a logged-in connection unbinds the id it last logged in as, even
   * when a newer connection holds that id now, and broadcasts the offline
   * status to the OPEN connections still bound.
   */
  lemma CloseUnbinds(st: RelayState, c: ConnId, d: Delivery)
    requires WellFormed(st)
    requires LoggedIn(st.session, c)
    ensures var u := st.session[c]; var st' := OnClose(st, c);
      && st'.clients == st.clients - {u}
      && c !in st'.open
      && st'.sent[..|st.sent|] == st.sent
      && (d in st'.sent[|st.sent|..] <==>
            d.frame == UserStatus(u, false) && d.conn in st'.open &&
            exists k :: k in st'.clients && st'.clients[k] == d.conn)
  {
    var u := st.session[c];
    var st' := OnClose(st, c);
    var fan := Fanout(st'.keys, st'.clients, st'.open, UserStatus(u, false));
    assert st'.sent == st.sent + fan;
    assert st'.sent[|st.sent|..] == fan;
    FanoutMembers(st'.keys, st'.clients, st'.open, UserStatus(u, false), d);
  }

  /**
   * The stale-close behaviour: connection `a` logs in as `u`, then connection
   * `b` logs in as `u` too; when `a` closes, `u` is no longer bound at all,
   * although `b` is still open.
   */
  lemma StaleCloseUnbindsNewer(st: RelayState, a: ConnId, b: ConnId, u: string)
    requires WellFormed(st)
    requires a != b && u != ""
    ensures var s1 := OnLogin(st, a, u);
      var s2 := OnLogin(s1, b, u);
      && s2.clients[u] == b
      && u !in OnClose(s2, a).clients
      && (b in st.open ==> b in OnClose(s2, a).open)
  {
  }

  /**
   * A connection that logs in as `x` and then as `y` keeps `x` bound to it
   * after it closes; only `y`, its last id, is removed.
   */
  lemma TwoIdsOneConnection(st: RelayState, c: ConnId, x: string, y: string)
    requires WellFormed(st)
    requires x != y && y != ""
    ensures var s := OnClose(OnLogin(OnLogin(st, c, x), c, y), c);
      && x in s.clients && s.clients[x] == c
      && y !in s.clients
      && c !in s.open
  {
  }

  // ---------------------------------------------------------------------------
  // The server as the JavaScript runs it
  // ---------------------------------------------------------------------------

  class RelayServer {
    var keys: seq<string>
    var clients: map<string, ConnId>
    var open: set<ConnId>
    var session: map<ConnId, string>
    var sent: seq<Delivery>
    var nextConn: ConnId

    function State(): RelayState
      reads this
    {
      RelayState(keys, clients, open, session, sent)
    }

    ghost predicate Valid()
      reads this
    {
      WellFormed(State()) &&
      (forall c :: c in open ==> c < nextConn) &&
      (forall c :: c in session ==> c < nextConn)
    }

    constructor ()
      ensures Valid()
      ensures State() == RelayState([], map[], {}, map[], [])
    {
      keys, clients, open, session, sent := [], map[], {}, map[], [];
      nextConn := 0;
    }

    /** The `connection` event: a new, OPEN connection whose `userId` is null. */
    method Accept() returns (c: ConnId)
      requires Valid()
      modifies this
      ensures Valid()
      ensures c == old(nextConn) && c !in old(open) && c !in old(session)
      ensures State() == old(State()).(open := old(open) + {c})
    {
      c := nextConn;
      nextConn := nextConn + 1;
      open := open + {c};
    }

    /** `broadcastUserStatus`: `clients.forEach` in key order, sending to OPEN connections. */
    method BroadcastUserStatus(u: string, online: bool)
      requires Valid()
      modifies this`sent
      ensures sent == old(sent) + Fanout(keys, clients, open, UserStatus(u, online))
    {
      var i := 0;
      while i < |keys|
        invariant 0 <= i <= |keys|
        invariant sent == old(sent) + Fanout(keys[..i], clients, open, UserStatus(u, online))
      {
        assert keys[..i + 1][..i] == keys[..i];
        var conn := clients[keys[i]];
        if conn in open {
          sent := sent + [Delivery(conn, UserStatus(u, online))];
        }
        i := i + 1;
      }
      assert keys[..i] == keys;
    }

    /** The `message` handler of connection `c`. */
    method Receive(c: ConnId, f: Inbound, now: string)
      requires Valid() && c < nextConn
      modifies this
      ensures Valid() && nextConn == old(nextConn)
      ensures State() == OnFrame(old(State()), c, f, now)
    {
      match f {
        case Login(u) =>
          ghost var st := State();
          StepsPreserveWellFormed(st, c, f, now);
          session := session[c := u];
          keys := SetKey(keys, u);
          clients := clients[u := c];
          assert State() == OnLogin(st, c, u).(sent := st.sent);
          BroadcastUserStatus(u, true);
        case ChatMessage(to, from, content) =>
          if to in clients && clients[to] in open {
            sent := sent + [Delivery(clients[to], Forwarded(from, content, now))];
          }
        case OtherFrame(_) =>
      }
    }

    /** The `close` handler of connection `c`. */
    method Close(c: ConnId)
      requires Valid() && c < nextConn
      modifies this
      ensures Valid() && nextConn == old(nextConn)
      ensures State() == OnClose(old(State()), c)
    {
      open := open - {c};
      if c in session && session[c] != "" {
        var u := session[c];
        DeleteKeyDistinct(keys, u);
        keys := DeleteKey(keys, u);
        clients := clients - {u};
        BroadcastUserStatus(u, false);
      }
    }
  }
}

/**
 * `initializeChatMockData` of `src/components/MockDataService.tsx`: three
 * mock users and two mock rooms are added to the store, each only when its
 * id is not there yet. The rooms' `createdAt` (`new Date()`) is a parameter.
 */
module MockData {
  import opened Strings
  import opened ChatViews

  const MockUsers: seq<ViewUser> := [
    ViewUser("user-1", "Sarah Parker", true),
    ViewUser("user-2", "Mike Johnson", false),
    ViewUser("user-3", "Alex Chen", true)
  ]

  function MockRooms(createdAt: string): seq<Room> {
    [ Room("room-1", "General Discussion", "General topics and announcements", 4, "system", createdAt),
      Room("room-2", "Tech Team", "For technical discussions", 3, "system", createdAt) ]
  }

  function UserIds(users: seq<ViewUser>): set<string> {
    set u | u in users :: u.id
  }

  function RoomIds(rooms: seq<Room>): set<string> {
    set r | r in rooms :: r.id
  }

  /** `mockUsers.filter(user => !existingUserIds.has(user.id))`. */
  function NewUsers(mock: seq<ViewUser>, existing: set<string>): (r: seq<ViewUser>)
    ensures forall u :: u in r <==> u in mock && u.id !in existing
  {
    if mock == [] then []
    else NewUsers(mock[..|mock| - 1], existing) +
         (if mock[|mock| - 1].id !in existing then [mock[|mock| - 1]] else [])
  }

  /** The filtered rooms with `createdBy` rewritten. */
  function NewRooms(mock: seq<Room>, existing: set<string>, createdBy: string): (r: seq<Room>)
    ensures forall x :: x in r <==> exists m :: m in mock && m.id !in existing && x == m.(createdBy := createdBy)
  {
    if mock == [] then []
    else
      var m := mock[|mock| - 1];
      NewRooms(mock[..|mock| - 1], existing, createdBy) + (if m.id !in existing then [m.(createdBy := createdBy)] else [])
  }

  /** `currentUser || 'system'`. */
  function SafeCurrentUser(currentUser: Option<string>): string {
    if currentUser.Some? && currentUser.value != "" then currentUser.value else "system"
  }

  /** The state after the call: both spread-appends (an empty addition leaves the list as it is). */
  function InitializeChatMockData(users: seq<ViewUser>, rooms: seq<Room>, currentUser: Option<string>, createdAt: string)
    : (seq<ViewUser>, seq<Room>)
  {
    (users + NewUsers(MockUsers, UserIds(users)),
     rooms + NewRooms(MockRooms(createdAt), RoomIds(rooms), SafeCurrentUser(currentUser)))
  }

  ghost predicate UniqueUserIds(users: seq<ViewUser>) {
    forall i, j :: 0 <= i < j < |users| ==> users[i].id != users[j].id
  }

  ghost predicate UniqueRoomIds(rooms: seq<Room>) {
    forall i, j :: 0 <= i < j < |rooms| ==> rooms[i].id != rooms[j].id
  }

  lemma {:induction false} NewUsersUnique(mock: seq<ViewUser>, existing: set<string>)
    requires UniqueUserIds(mock)
    ensures UniqueUserIds(NewUsers(mock, existing))
  {
    if mock != [] {
      var init := mock[..|mock| - 1];
      NewUsersUnique(init, existing);
      forall u | u in init ensures u.id != mock[|mock| - 1].id {
        var i :| 0 <= i < |init| && init[i] == u;
        assert mock[i] == u;
      }
    }
  }

  lemma {:induction false} NewRoomsUnique(mock: seq<Room>, existing: set<string>, createdBy: string)
    requires UniqueRoomIds(mock)
    ensures UniqueRoomIds(NewRooms(mock, existing, createdBy))
  {
    if mock != [] {
      var init := mock[..|mock| - 1];
      NewRoomsUnique(init, existing, createdBy);
      forall x | x in NewRooms(init, existing, createdBy) ensures x.id != mock[|mock| - 1].id {
        var m :| m in init && m.id !in existing && x == m.(createdBy := createdBy);
        var i :| 0 <= i < |init| && init[i] == m;
        assert mock[i] == m;
      }
    }
  }

  /**
   * The existing users and rooms come first and unchanged; after them come
   * exactly the mock entries whose ids were absent, the rooms created by the
   * current user (or `system` without one). Ids that were unique stay unique.
   */
  lemma MockDataAddsOnlyAbsent(users: seq<ViewUser>, rooms: seq<Room>, currentUser: Option<string>, createdAt: string)
    requires UniqueUserIds(users) && UniqueRoomIds(rooms)
    ensures var (us, rs) := InitializeChatMockData(users, rooms, currentUser, createdAt);
      && us[..|users|] == users && rs[..|rooms|] == rooms
      && (forall u :: u in us[|users|..] <==> u in MockUsers && u.id !in UserIds(users))
      && (forall x :: x in rs[|rooms|..] <==>
            exists m :: m in MockRooms(createdAt) && m.id !in RoomIds(rooms) && x == m.(createdBy := SafeCurrentUser(currentUser)))
      && UniqueUserIds(us) && UniqueRoomIds(rs)
  {
    var added := NewUsers(MockUsers, UserIds(users));
    var addedRooms := NewRooms(MockRooms(createdAt), RoomIds(rooms), SafeCurrentUser(currentUser));
    NewUsersUnique(MockUsers, UserIds(users));
    NewRoomsUnique(MockRooms(createdAt), RoomIds(rooms), SafeCurrentUser(currentUser));
    var us := users + added;
    var rs := rooms + addedRooms;
    assert us[..|users|] == users && us[|users|..] == added;
    assert rs[..|rooms|] == rooms && rs[|rooms|..] == addedRooms;
    forall i, j | 0 <= i < j < |us| ensures us[i].id != us[j].id {
      if i < |users| && j >= |users| {
        assert us[i] in users && us[j] in added;
      }
    }
    forall i, j | 0 <= i < j < |rs| ensures rs[i].id != rs[j].id {
      if i < |rooms| && j >= |rooms| {
        assert rs[i] in rooms && rs[j] in addedRooms;
      }
    }
  }

  /** The filter works entry by entry, so it keeps the mock order. */
  lemma {:induction false} NewUsersDistributes(a: seq<ViewUser>, b: seq<ViewUser>, existing: set<string>)
    ensures NewUsers(a + b, existing) == NewUsers(a, existing) + NewUsers(b, existing)
  {
    if b == [] {
      assert a + b == a;
    } else {
      var init := b[..|b| - 1];
      assert (a + b)[..|a + b| - 1] == a + init && (a + b)[|a + b| - 1] == b[|b| - 1];
      NewUsersDistributes(a, init, existing);
    }
  }

  lemma {:induction false} NewRoomsDistributes(a: seq<Room>, b: seq<Room>, existing: set<string>, createdBy: string)
    ensures NewRooms(a + b, existing, createdBy) == NewRooms(a, existing, createdBy) + NewRooms(b, existing, createdBy)
  {
    if b == [] {
      assert a + b == a;
    } else {
      var init := b[..|b| - 1];
      assert (a + b)[..|a + b| - 1] == a + init && (a + b)[|a + b| - 1] == b[|b| - 1];
      NewRoomsDistributes(a, init, existing, createdBy);
    }
  }

  function UserIfAbsent(u: ViewUser, existing: set<string>): seq<ViewUser> {
    if u.id !in existing then [u] else []
  }

  function RoomIfAbsent(m: Room, existing: set<string>, createdBy: string): seq<Room> {
    if m.id !in existing then [m.(createdBy := createdBy)] else []
  }

  lemma NewUsersOfThree(x: ViewUser, y: ViewUser, z: ViewUser, existing: set<string>)
    ensures NewUsers([x, y, z], existing) == UserIfAbsent(x, existing) + UserIfAbsent(y, existing) + UserIfAbsent(z, existing)
  {
    assert [x][..0] == [] && [x, y][..1] == [x] && [x, y, z][..2] == [x, y];
    assert NewUsers([x], existing) == UserIfAbsent(x, existing);
    assert NewUsers([x, y], existing) == NewUsers([x], existing) + UserIfAbsent(y, existing);
    assert NewUsers([x, y, z], existing) == NewUsers([x, y], existing) + UserIfAbsent(z, existing);
  }

  lemma NewRoomsOfTwo(x: Room, y: Room, existing: set<string>, createdBy: string)
    ensures NewRooms([x, y], existing, createdBy) == RoomIfAbsent(x, existing, createdBy) + RoomIfAbsent(y, existing, createdBy)
  {
    assert [x][..0] == [] && [x, y][..1] == [x];
    assert NewRooms([x], existing, createdBy) == RoomIfAbsent(x, existing, createdBy);
    assert NewRooms([x, y], existing, createdBy) == NewRooms([x], existing, createdBy) + RoomIfAbsent(y, existing, createdBy);
  }

  /**
   * The appended tails in full: each absent mock user, then each absent mock
   * room with its `createdBy` rewritten, in the order the mock lists give them.
   */
  lemma MockDataAppendsInMockOrder(users: seq<ViewUser>, rooms: seq<Room>, currentUser: Option<string>, createdAt: string)
    ensures var (us, rs) := InitializeChatMockData(users, rooms, currentUser, createdAt);
      var ids, roomIds, owner := UserIds(users), RoomIds(rooms), SafeCurrentUser(currentUser);
      && us == users + UserIfAbsent(MockUsers[0], ids) + UserIfAbsent(MockUsers[1], ids) + UserIfAbsent(MockUsers[2], ids)
      && rs == rooms + RoomIfAbsent(MockRooms(createdAt)[0], roomIds, owner) + RoomIfAbsent(MockRooms(createdAt)[1], roomIds, owner)
  {
    MockUsersInOrder(UserIds(users));
    MockRoomsInOrder(createdAt, RoomIds(rooms), SafeCurrentUser(currentUser));
  }

  lemma MockUsersInOrder(existing: set<string>)
    ensures NewUsers(MockUsers, existing)
         == UserIfAbsent(MockUsers[0], existing) + UserIfAbsent(MockUsers[1], existing) + UserIfAbsent(MockUsers[2], existing)
  {
    var m := MockUsers;
    assert m == [m[0], m[1], m[2]];
    NewUsersOfThree(m[0], m[1], m[2], existing);
  }

  lemma MockRoomsInOrder(createdAt: string, existing: set<string>, createdBy: string)
    ensures NewRooms(MockRooms(createdAt), existing, createdBy)
         == RoomIfAbsent(MockRooms(createdAt)[0], existing, createdBy) + RoomIfAbsent(MockRooms(createdAt)[1], existing, createdBy)
  {
    var r := MockRooms(createdAt);
    assert r == [r[0], r[1]];
    NewRoomsOfTwo(r[0], r[1], existing, createdBy);
  }

  /** After the users are added, every mock id is taken. */
  lemma UsersCovered(users: seq<ViewUser>, mock: seq<ViewUser>)
    ensures forall u :: u in mock ==> u.id in UserIds(users + NewUsers(mock, UserIds(users)))
  {
    var us := users + NewUsers(mock, UserIds(users));
    forall u | u in mock ensures u.id in UserIds(us) {
      if u.id !in UserIds(users) {
        assert u in us;
      }
    }
  }

  lemma RoomsCovered(rooms: seq<Room>, mock: seq<Room>, createdBy: string)
    ensures forall m :: m in mock ==> m.id in RoomIds(rooms + NewRooms(mock, RoomIds(rooms), createdBy))
  {
    var rs := rooms + NewRooms(mock, RoomIds(rooms), createdBy);
    forall m | m in mock ensures m.id in RoomIds(rs) {
      if m.id !in RoomIds(rooms) {
        var x := m.(createdBy := createdBy);
        assert x in rs;
        assert x.id == m.id;
      }
    }
  }

  lemma NothingNew(users: seq<ViewUser>, rooms: seq<Room>, mockUsers: seq<ViewUser>, mockRooms: seq<Room>, createdBy: string)
    requires forall u :: u in mockUsers ==> u.id in UserIds(users)
    requires forall m :: m in mockRooms ==> m.id in RoomIds(rooms)
    ensures NewUsers(mockUsers, UserIds(users)) == [] && NewRooms(mockRooms, RoomIds(rooms), createdBy) == []
  {
  }

  /** A second call on the result adds nothing. */
  lemma MockDataIdempotent(users: seq<ViewUser>, rooms: seq<Room>, currentUser: Option<string>, createdAt: string)
    ensures var (us, rs) := InitializeChatMockData(users, rooms, currentUser, createdAt);
      InitializeChatMockData(us, rs, currentUser, createdAt) == (us, rs)
  {
    var owner := SafeCurrentUser(currentUser);
    var (us, rs) := InitializeChatMockData(users, rooms, currentUser, createdAt);
    UsersCovered(users, MockUsers);
    RoomsCovered(rooms, MockRooms(createdAt), owner);
    NothingNew(us, rs, MockUsers, MockRooms(createdAt), owner);
    assert us + [] == us && rs + [] == rs;
  }
}

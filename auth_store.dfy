/**
 * The mock account store of `src/store/authStore.ts`.
 *
 * Records are plain JavaScript objects, so they are modelled as maps from
 * field name to value: object spread `{...a, ...b}` is the map union `a + b`,
 * in which `b` wins. The one-second `delay` and the interleaving it allows are
 * left out: each action runs from its entry `set` to its final `set` in one
 * step. The random token is a parameter.
 */
module AuthStore {
  import opened Strings

  type Record = map<string, string>

  datatype AuthState = AuthState(
    users: map<string, Record>,
    user: Option<Record>,
    token: Option<string>,
    isAuthenticated: bool,
    isLoading: bool,
    error: Option<string>)

  /** The module-level `users` table as it starts. */
  const InitialUsers: map<string, Record> := map[
    "user1@example.com" := map["id" := "1", "username" := "alice", "email" := "user1@example.com", "password" := "password123"],
    "user2@example.com" := map["id" := "2", "username" := "bob", "email" := "user2@example.com", "password" := "password123"]
  ]

  const InitialState: AuthState := AuthState(InitialUsers, None, None, false, false, None)

  /** The fields `login` copies out of a record. */
  const PublicFields: set<string> := {"id", "username", "email", "avatar"}

  /** `{ id: user.id, username: user.username, email: user.email, avatar: user.avatar }`. */
  function PublicView(rec: Record): (r: Record)
    ensures r.Keys == rec.Keys * PublicFields
    ensures forall k :: k in r ==> r[k] == rec[k]
  {
    map k | k in rec.Keys * PublicFields :: rec[k]
  }

  /** `users[currentUser.email]`: a missing `email` is the key "undefined" in JavaScript. */
  function EmailKey(rec: Record): string {
    if "email" in rec then rec["email"] else "undefined"
  }

  /** A field that is present and not the empty string, as an `if (x.f)` test sees it. */
  predicate Truthy(rec: Record, field: string) {
    field in rec && rec[field] != ""
  }

  /** `set({ isLoading: true, error: null })` at the start of every async action. */
  function Enter(st: AuthState): AuthState {
    st.(isLoading := true, error := None)
  }

  /** `catch (error) { set({ error: error.message, isLoading: false }) }`. */
  function Fail(st: AuthState, message: string): AuthState {
    st.(error := Some(message), isLoading := false)
  }

  function RegisterStep(st: AuthState, username: string, email: string, password: string, token: string): AuthState {
    var s := Enter(st);
    if email in s.users then Fail(s, "Email already registered")
    else
      var id := NatToString(|s.users| + 1);
      s.(users := s.users[email := map["id" := id, "username" := username, "email" := email, "password" := password]],
         user := Some(map["id" := id, "username" := username, "email" := email]),
         token := Some(token), isAuthenticated := true, isLoading := false)
  }

  /** `user.password !== password`; a record without a password never matches. */
  predicate PasswordMatches(rec: Record, password: string) {
    "password" in rec && rec["password"] == password
  }

  function LoginStep(st: AuthState, email: string, password: string, token: string): AuthState {
    var s := Enter(st);
    if email !in s.users then Fail(s, "User does not exist")
    else if !PasswordMatches(s.users[email], password) then Fail(s, "Incorrect password")
    else s.(user := Some(PublicView(s.users[email])), token := Some(token), isAuthenticated := true, isLoading := false)
  }

  function LogoutStep(st: AuthState): AuthState {
    st.(user := None, token := None, isAuthenticated := false)
  }

  function ClearErrorStep(st: AuthState): AuthState {
    st.(error := None)
  }

  /** `userData.email && currentUser.email !== userData.email`. */
  predicate ChangesEmail(cur: Record, upd: Record) {
    Truthy(upd, "email") && !("email" in cur && cur["email"] == upd["email"])
  }

  function UpdateProfileStep(st: AuthState, upd: Record): AuthState {
    var s := Enter(st);
    if s.user.None? then Fail(s, "Not logged in")
    else
      var cur := s.user.value;
      if ChangesEmail(cur, upd) then
        var ne := upd["email"];
        if ne in s.users then Fail(s, "Email already in use")
        else
          var oldKey := EmailKey(cur);
          var users' := if oldKey in s.users
                        then (s.users - {oldKey})[ne := s.users[oldKey] + upd + map["email" := ne]]
                        else s.users;
          s.(users := users', user := Some(cur + upd), isLoading := false)
      else if Truthy(cur, "email") then
        var key := cur["email"];
        var existing := if key in s.users then s.users[key] else map[];
        s.(users := s.users[key := existing + upd], user := Some(cur + upd), isLoading := false)
      else s.(user := Some(cur + upd), isLoading := false)
  }

  // ---------------------------------------------------------------------------
  // Properties
  // ---------------------------------------------------------------------------

  /** Registering a taken email fails and changes neither the table nor the session. */
  lemma RegisterDuplicateFails(st: AuthState, username: string, email: string, password: string, token: string)
    requires email in st.users
    ensures var r := RegisterStep(st, username, email, password, token);
      r == st.(error := Some("Email already registered"), isLoading := false)
  {
  }

  /**
   * A successful registration stores one new record under its email, with
   * id = previous record count + 1, and logs in a user that has no password.
   */
  lemma RegisterStores(st: AuthState, username: string, email: string, password: string, token: string)
    requires email !in st.users
    ensures var r := RegisterStep(st, username, email, password, token);
      && r.users.Keys == st.users.Keys + {email}
      && |r.users| == |st.users| + 1
      && (forall e :: e in st.users ==> r.users[e] == st.users[e])
      && r.users[email]["id"] == NatToString(|st.users| + 1)
      && r.users[email]["password"] == password
      && r.user.Some? && "password" !in r.user.value
      && r.user.value == r.users[email] - {"password"}
      && r.isAuthenticated && r.token == Some(token) && r.error.None? && !r.isLoading
  {
    var id := NatToString(|st.users| + 1);
    StoredMinusPassword(id, username, email, password);
  }

  /** The record `register` stores, without its password, is the user it logs in. */
  lemma StoredMinusPassword(id: string, username: string, email: string, password: string)
    ensures map["id" := id, "username" := username, "email" := email, "password" := password] - {"password"}
         == map["id" := id, "username" := username, "email" := email]
  {
    var a := map["id" := id, "username" := username, "email" := email, "password" := password] - {"password"};
    var b := map["id" := id, "username" := username, "email" := email];
    assert a.Keys == b.Keys;
  }

  /** An unknown email or a wrong password fails with its own message and sets no user. */
  lemma LoginErrors(st: AuthState, email: string, password: string, token: string)
    ensures email !in st.users ==>
      LoginStep(st, email, password, token) == st.(error := Some("User does not exist"), isLoading := false)
    ensures email in st.users && !PasswordMatches(st.users[email], password) ==>
      LoginStep(st, email, password, token) == st.(error := Some("Incorrect password"), isLoading := false)
  {
  }

  /** A successful login copies the public fields of the record, never the password. */
  lemma LoginSuccess(st: AuthState, email: string, password: string, token: string)
    requires email in st.users && PasswordMatches(st.users[email], password)
    ensures var r := LoginStep(st, email, password, token);
      && r.user.Some? && "password" !in r.user.value
      && (forall k :: k in PublicFields && k in st.users[email] ==> k in r.user.value && r.user.value[k] == st.users[email][k])
      && r.users == st.users && r.isAuthenticated && r.token == Some(token) && r.error.None? && !r.isLoading
  {
  }

  /** Every async action ends with `isLoading` false; `error` is set exactly when it failed. */
  lemma ActionsEndNotLoading(st: AuthState, username: string, email: string, password: string, token: string, upd: Record)
    ensures !RegisterStep(st, username, email, password, token).isLoading
    ensures RegisterStep(st, username, email, password, token).error.None? <==> email !in st.users
    ensures !LoginStep(st, email, password, token).isLoading
    ensures LoginStep(st, email, password, token).error.None? <==>
      email in st.users && PasswordMatches(st.users[email], password)
    ensures !UpdateProfileStep(st, upd).isLoading
    ensures UpdateProfileStep(st, upd).error.None? <==>
      st.user.Some? && !(ChangesEmail(st.user.value, upd) && upd["email"] in st.users)
  {
  }

  /** `updateProfile` fails without a user, or when the new email is another existing key; table and user stay. */
  lemma UpdateProfileErrors(st: AuthState, upd: Record)
    ensures st.user.None? ==>
      UpdateProfileStep(st, upd) == st.(error := Some("Not logged in"), isLoading := false)
    ensures st.user.Some? && ChangesEmail(st.user.value, upd) && upd["email"] in st.users ==>
      UpdateProfileStep(st, upd) == st.(error := Some("Email already in use"), isLoading := false)
  {
  }

  lemma MapRemoveAddCard<K, V>(m: map<K, V>, a: K, b: K, v: V)
    requires a in m && b !in m
    ensures |(m - {a})[b := v]| == |m|
  {
    var m' := (m - {a})[b := v];
    assert m'.Keys == m.Keys - {a} + {b};
    assert |m'.Keys| == |m.Keys| - 1 + 1;
  }

  /**
   * A successful email change moves the record from the old key to the new
   * one, merged with the update and carrying the new email; the table size
   * is unchanged and every other record is untouched.
   */
  lemma EmailChangeMovesRecord(st: AuthState, upd: Record)
    requires st.user.Some? && ChangesEmail(st.user.value, upd) && upd["email"] !in st.users
    requires EmailKey(st.user.value) in st.users
    ensures var r := UpdateProfileStep(st, upd);
      var oldKey := EmailKey(st.user.value);
      var ne := upd["email"];
      && r.users.Keys == st.users.Keys - {oldKey} + {ne}
      && |r.users| == |st.users|
      && r.users[ne] == st.users[oldKey] + upd + map["email" := ne]
      && (forall e :: e in st.users && e != oldKey ==> r.users[e] == st.users[e])
      && r.user == Some(st.user.value + upd) && r.error.None? && !r.isLoading
  {
    MapRemoveAddCard(st.users, EmailKey(st.user.value), upd["email"], st.users[EmailKey(st.user.value)] + upd + map["email" := upd["email"]]);
  }

  lemma LogoutAndClearError(st: AuthState)
    ensures var r := LogoutStep(st);
      r.user.None? && r.token.None? && !r.isAuthenticated && r.users == st.users && r.error == st.error
    ensures ClearErrorStep(st).error.None? && ClearErrorStep(st).users == st.users && ClearErrorStep(st).user == st.user
  {
  }

  /** `id` is one of "1" … "n". */
  ghost predicate IdInRange(id: string, n: nat) {
    exists k :: 1 <= k <= n && id == NatToString(k)
  }

  /** Record ids are the numbers 1 … |users| printed, no two alike. */
  ghost predicate IdsWellFormed(users: map<string, Record>) {
    && (forall e :: e in users ==> "id" in users[e] && IdInRange(users[e]["id"], |users|))
    && (forall e1, e2 :: e1 in users && e2 in users && e1 != e2 ==> users[e1]["id"] != users[e2]["id"])
  }

  lemma InitialIdsWellFormed()
    ensures IdsWellFormed(InitialUsers)
  {
    var k1, k2 := "user1@example.com", "user2@example.com";
    var r1, r2 := InitialUsers[k1], InitialUsers[k2];
    var none: map<string, Record> := map[];
    assert NatToString(1) == "1" && NatToString(2) == "2";
    assert r1["id"] == "1" && r2["id"] == "2";
    AddNextIdKeeps(none, k1, r1);
    var one := none[k1 := r1];
    assert |one| == 1 && k2 !in one;
    AddNextIdKeeps(one, k2, r2);
    assert InitialUsers == one[k2 := r2];
  }

  lemma IdInRangeGrows(id: string, n: nat)
    requires IdInRange(id, n)
    ensures IdInRange(id, n + 1) && id != NatToString(n + 1)
  {
    var k :| 1 <= k <= n && id == NatToString(k);
    NatToStringInjective(k, n + 1);
  }

  /** Adding a record whose id is the next number keeps the ids well formed. */
  lemma AddNextIdKeeps(users: map<string, Record>, key: string, rec: Record)
    requires IdsWellFormed(users) && key !in users
    requires "id" in rec && rec["id"] == NatToString(|users| + 1)
    ensures IdsWellFormed(users[key := rec])
  {
    var users' := users[key := rec];
    var n := |users|;
    assert |users'| == n + 1;
    forall e | e in users' ensures "id" in users'[e] && IdInRange(users'[e]["id"], n + 1) {
      if e == key {
        assert users'[e]["id"] == NatToString(n + 1);
      } else {
        assert users'[e] == users[e];
        IdInRangeGrows(users[e]["id"], n);
      }
    }
    forall e1, e2 | e1 in users' && e2 in users' && e1 != e2 ensures users'[e1]["id"] != users'[e2]["id"] {
      if e1 == key {
        IdInRangeGrows(users[e2]["id"], n);
      } else if e2 == key {
        IdInRangeGrows(users[e1]["id"], n);
      } else {
        assert users'[e1] == users[e1] && users'[e2] == users[e2];
      }
    }
  }

  lemma ReplaceCard<K, V>(m: map<K, V>, a: K, b: K, v: V)
    requires a in m && (b == a || b !in m)
    ensures |(m - {a})[b := v]| == |m|
  {
    if b == a {
      assert (m - {a})[b := v] == m[a := v];
    } else {
      MapRemoveAddCard(m, a, b, v);
    }
  }

  /** Replacing a record by one with the same id, under the same key or a fresh one, keeps them well formed. */
  lemma ReplaceSameIdKeeps(users: map<string, Record>, oldKey: string, newKey: string, rec: Record)
    requires IdsWellFormed(users) && oldKey in users
    requires newKey == oldKey || newKey !in users
    requires "id" in rec && rec["id"] == users[oldKey]["id"]
    ensures IdsWellFormed((users - {oldKey})[newKey := rec])
  {
    var users' := (users - {oldKey})[newKey := rec];
    ReplaceCard(users, oldKey, newKey, rec);
    var n := |users|;
    forall e | e in users' ensures "id" in users'[e] && IdInRange(users'[e]["id"], n) {
      if e != newKey {
        assert users'[e] == users[e];
      }
    }
    forall e1, e2 | e1 in users' && e2 in users' && e1 != e2 ensures users'[e1]["id"] != users'[e2]["id"] {
      var o1 := if e1 == newKey then oldKey else e1;
      var o2 := if e2 == newKey then oldKey else e2;
      assert users'[e1]["id"] == users[o1]["id"];
      assert users'[e2]["id"] == users[o2]["id"];
      assert o1 != o2;
    }
  }

  /** The id rule of `register` never repeats an id while records only come from it. */
  lemma RegisterKeepsIdsWellFormed(st: AuthState, username: string, email: string, password: string, token: string)
    requires IdsWellFormed(st.users)
    ensures IdsWellFormed(RegisterStep(st, username, email, password, token).users)
  {
    if email !in st.users {
      AddNextIdKeeps(st.users, email, map["id" := NatToString(|st.users| + 1), "username" := username, "email" := email, "password" := password]);
    }
  }

  /**
   * An update that carries no `id` keeps the ids well formed, provided the
   * current user's record is in the table (so no record is created from the
   * bare update).
   */
  lemma UpdateKeepsIdsWellFormed(st: AuthState, upd: Record)
    requires IdsWellFormed(st.users)
    requires "id" !in upd
    requires st.user.Some? ==> EmailKey(st.user.value) in st.users
    ensures IdsWellFormed(UpdateProfileStep(st, upd).users)
  {
    if st.user.Some? {
      var cur := st.user.value;
      var oldKey := EmailKey(cur);
      if ChangesEmail(cur, upd) {
        if upd["email"] !in st.users {
          var ne := upd["email"];
          ReplaceSameIdKeeps(st.users, oldKey, ne, st.users[oldKey] + upd + map["email" := ne]);
        }
      } else if Truthy(cur, "email") {
        ReplaceSameIdKeeps(st.users, oldKey, oldKey, st.users[oldKey] + upd);
        assert (st.users - {oldKey})[oldKey := st.users[oldKey] + upd] == st.users[oldKey := st.users[oldKey] + upd];
      }
    }
  }

  // ---------------------------------------------------------------------------
  // The store object
  // ---------------------------------------------------------------------------

  class Store {
    var users: map<string, Record>
    var user: Option<Record>
    var token: Option<string>
    var isAuthenticated: bool
    var isLoading: bool
    var error: Option<string>

    function State(): AuthState
      reads this
    {
      AuthState(users, user, token, isAuthenticated, isLoading, error)
    }

    constructor ()
      ensures State() == InitialState
    {
      users, user, token := InitialUsers, None, None;
      isAuthenticated, isLoading, error := false, false, None;
    }

    method Register(username: string, email: string, password: string, tok: string)
      modifies this
      ensures State() == RegisterStep(old(State()), username, email, password, tok)
    {
      isLoading, error := true, None;
      if email in users {
        error, isLoading := Some("Email already registered"), false;
        return;
      }
      var id := NatToString(|users| + 1);
      users := users[email := map["id" := id, "username" := username, "email" := email, "password" := password]];
      user, token, isAuthenticated, isLoading := Some(map["id" := id, "username" := username, "email" := email]), Some(tok), true, false;
    }

    method Login(email: string, password: string, tok: string)
      modifies this
      ensures State() == LoginStep(old(State()), email, password, tok)
    {
      isLoading, error := true, None;
      if email !in users {
        error, isLoading := Some("User does not exist"), false;
        return;
      }
      var rec := users[email];
      if !PasswordMatches(rec, password) {
        error, isLoading := Some("Incorrect password"), false;
        return;
      }
      user, token, isAuthenticated, isLoading := Some(PublicView(rec)), Some(tok), true, false;
    }

    method Logout()
      modifies this
      ensures State() == LogoutStep(old(State()))
    {
      user, token, isAuthenticated := None, None, false;
    }

    method UpdateProfile(upd: Record)
      modifies this
      ensures State() == UpdateProfileStep(old(State()), upd)
    {
      isLoading, error := true, None;
      if user.None? {
        error, isLoading := Some("Not logged in"), false;
        return;
      }
      var cur := user.value;
      var updated := cur + upd;
      if ChangesEmail(cur, upd) {
        var ne := upd["email"];
        if ne in users {
          error, isLoading := Some("Email already in use"), false;
          return;
        }
        var oldKey := EmailKey(cur);
        if oldKey in users {
          var rec := users[oldKey];
          users := users - {oldKey};
          users := users[ne := rec + upd + map["email" := ne]];
        }
      } else if Truthy(cur, "email") {
        var key := cur["email"];
        var existing := if key in users then users[key] else map[];
        users := users[key := existing + upd];
      }
      user, isLoading := Some(updated), false;
    }

    method ClearError()
      modifies this
      ensures State() == ClearErrorStep(old(State()))
    {
      error := None;
    }
  }
}

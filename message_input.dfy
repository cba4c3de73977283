/**
 * The text logic of `src/components/MessageInput.tsx`: opening the `@`-mention
 * menu while typing, inserting a chosen mention or emoji at the cursor,
 * submitting, the `@` button, and the list of users offered for a mention.
 * The component's React state is the `InputState` record; every handler is
 * a function from the old record to the new one.
 */
module MessageInput {
  import opened Strings
  import opened ChatViews

  datatype InputState = InputState(
    message: string,
    cursor: nat,
    showEmojiPicker: bool,
    showMentionMenu: bool,
    mentionSearch: string)

  const InitialInput := InputState("", 0, false, false, "")

  function Min(a: nat, b: nat): nat {
    if a <= b then a else b
  }

  /** `s.substring(0, n)`: JavaScript clamps `n` to the length. */
  function Before(s: string, n: nat): string {
    s[..Min(n, |s|)]
  }

  /** `s.substring(n)`, clamped the same way. */
  function After(s: string, n: nat): string {
    s[Min(n, |s|)..]
  }

  /** The character before an `@` that may start a mention. */
  predicate StartsWord(text: string, at: nat)
    requires at <= |text|
  {
    at == 0 || text[at - 1] == ' ' || text[at - 1] == '\n'
  }

  /**
   * The menu test of `handleInputChange`: the last `@` before the cursor, at
   * the start or after a space or newline, at most 20 characters back. The
   * result is the search term.
   */
  function MentionTrigger(text: string, cur: nat): Option<string> {
    var before := Before(text, cur);
    var at := LastIndexOf(before, '@');
    if at != -1 && StartsWord(text, at) && cur - at <= 20
    then Some(before[at + 1..])
    else None
  }

  /** The reference reading: `at` is the `@` that opens the menu for the text and cursor. */
  ghost predicate MentionAt(text: string, cur: nat, at: int) {
    var end := Min(cur, |text|);
    && 0 <= at < end
    && text[at] == '@'
    && (forall j :: at < j < end ==> text[j] != '@')
    && StartsWord(text, at)
    && cur - at <= 20
  }

  /**
   * The menu opens with term `t` exactly when some `@` satisfies the rule and
   * `t` is the text strictly between it and the cursor; such a term holds no
   * `@` and is at most 19 characters long.
   */
  lemma MentionTriggerIff(text: string, cur: nat, t: string)
    ensures MentionTrigger(text, cur) == Some(t) <==>
      exists at :: MentionAt(text, cur, at) && t == text[at + 1..Min(cur, |text|)]
    ensures MentionTrigger(text, cur) == Some(t) ==> '@' !in t && |t| <= 19
  {
    var before := Before(text, cur);
    var at := LastIndexOf(before, '@');
    if MentionTrigger(text, cur) == Some(t) {
      assert MentionAt(text, cur, at);
      assert forall k :: 0 <= k < |t| ==> t[k] == before[at + 1 + k];
    }
    if exists a :: MentionAt(text, cur, a) && t == text[a + 1..Min(cur, |text|)] {
      var a :| MentionAt(text, cur, a) && t == text[a + 1..Min(cur, |text|)];
      assert before[a] == '@';
      assert at == a;
    }
  }

  /** `handleInputChange(e)` with the new value and the reported cursor. */
  function HandleInputChange(st: InputState, newValue: string, curPos: nat): InputState {
    var trigger := MentionTrigger(newValue, curPos);
    if trigger.Some?
    then st.(message := newValue, cursor := curPos, mentionSearch := trigger.value, showMentionMenu := true)
    else st.(message := newValue, cursor := curPos, showMentionMenu := false)
  }

  /**
   * Typing stores the text and cursor; the menu is open afterwards exactly
   * when an `@` satisfies the rule, with the text between it and the cursor
   * as the search term. A closed menu keeps the old term and the emoji
   * picker is not touched.
   */
  lemma HandleInputChangeOpensMenu(st: InputState, newValue: string, curPos: nat)
    ensures var r := HandleInputChange(st, newValue, curPos);
      && r.message == newValue && r.cursor == curPos
      && (r.showMentionMenu <==> exists at :: MentionAt(newValue, curPos, at))
      && (r.showMentionMenu ==>
            exists at :: MentionAt(newValue, curPos, at) && r.mentionSearch == newValue[at + 1..Min(curPos, |newValue|)])
      && (!r.showMentionMenu ==> r.mentionSearch == st.mentionSearch)
      && r.showEmojiPicker == st.showEmojiPicker
  {
    var trigger := MentionTrigger(newValue, curPos);
    if trigger.Some? {
      MentionTriggerIff(newValue, curPos, trigger.value);
    } else if exists at :: MentionAt(newValue, curPos, at) {
      var at :| MentionAt(newValue, curPos, at);
      MentionTriggerIff(newValue, curPos, newValue[at + 1..Min(curPos, |newValue|)]);
      assert false;
    }
  }

  /** `handleMentionSelect(username)`. */
  function MentionSelect(st: InputState, username: string): InputState {
    var at := LastIndexOf(Before(st.message, st.cursor), '@');
    if at != -1 then
      st.(message := st.message[..at] + "@" + username + " " + After(st.message, st.cursor),
          cursor := at + |username| + 2,
          showMentionMenu := false)
    else
      st.(showMentionMenu := false)
  }

  /**
   * Choosing a mention keeps the text before the `@`, writes `@`, the name and
   * a space, keeps the text after the cursor, and puts the cursor just after
   * the space. Without an `@` before the cursor nothing but the menu changes,
   * and the menu is closed in every case.
   */
  lemma MentionSelectRewrites(st: InputState, username: string)
    ensures var r := MentionSelect(st, username);
      && !r.showMentionMenu
      && r.showEmojiPicker == st.showEmojiPicker && r.mentionSearch == st.mentionSearch
      && ('@' !in Before(st.message, st.cursor) ==> r.message == st.message && r.cursor == st.cursor)
      && ('@' in Before(st.message, st.cursor) ==>
            exists at ::
              && 0 <= at < Min(st.cursor, |st.message|) && st.message[at] == '@'
              && (forall j :: at < j < Min(st.cursor, |st.message|) ==> st.message[j] != '@')
              && r.cursor <= |r.message|
              && r.message[..r.cursor] == st.message[..at] + "@" + username + " "
              && r.message[r.cursor..] == After(st.message, st.cursor))
  {
    var r := MentionSelect(st, username);
    var before := Before(st.message, st.cursor);
    var at := LastIndexOf(before, '@');
    if at != -1 {
      var head := st.message[..at] + "@" + username + " ";
      assert |head| == at + |username| + 2;
      assert r.message == head + After(st.message, st.cursor);
      assert r.message[..r.cursor] == head;
    }
  }

  /** `handleEmojiSelect(emoji)`. */
  function EmojiSelect(st: InputState, emoji: string): InputState {
    st.(message := Before(st.message, st.cursor) + emoji + After(st.message, st.cursor),
        cursor := st.cursor + |emoji|,
        showEmojiPicker := false)
  }

  /**
   * An emoji lands at the cursor with both sides unchanged and the cursor
   * advances by its length. A cursor past the end (the text was cleared by a
   * submit, which keeps the cursor) appends the emoji and leaves the cursor
   * past the end.
   */
  lemma EmojiSelectInserts(st: InputState, emoji: string)
    ensures var r := EmojiSelect(st, emoji);
      && r.cursor == st.cursor + |emoji| && !r.showEmojiPicker
      && r.showMentionMenu == st.showMentionMenu && r.mentionSearch == st.mentionSearch
      && |r.message| == |st.message| + |emoji|
      && (st.cursor <= |st.message| ==>
            && r.message[..st.cursor] == st.message[..st.cursor]
            && r.message[st.cursor..r.cursor] == emoji
            && r.message[r.cursor..] == st.message[st.cursor..])
      && (st.cursor > |st.message| ==> r.message == st.message + emoji && r.cursor > |r.message|)
  {
    var r := EmojiSelect(st, emoji);
    if st.cursor <= |st.message| {
      assert r.message == st.message[..st.cursor] + emoji + st.message[st.cursor..];
    } else {
      assert st.message[|st.message|..] == [];
      assert r.message == st.message + emoji;
    }
  }

  /** `handleSubmit`: the text handed to `onSendMessage`, if any, and the new state. */
  function Submit(st: InputState, isDisabled: bool): (InputState, Option<string>) {
    if !IsBlank(st.message) && !isDisabled
    then (st.(message := "", showEmojiPicker := false), Some(st.message))
    else (st, None)
  }

  /**
   * A submit sends the text exactly when it is not blank after trimming and
   * the input is enabled, and then clears the text. A submit right after a
   * send sends nothing.
   */
  lemma SubmitSendsAndClears(st: InputState, isDisabled: bool)
    ensures var (r, sent) := Submit(st, isDisabled);
      && (sent.Some? <==> !isDisabled && exists i :: 0 <= i < |st.message| && !IsSpace(st.message[i]))
      && (sent.Some? ==> sent.value == st.message && r.message == "" && !r.showEmojiPicker && r.cursor == st.cursor)
      && (sent.None? ==> r == st)
      && (sent.Some? ==> Submit(r, isDisabled).1 == None)
  {
    BlankIffAllSpace(st.message);
    BlankIffAllSpace("");
  }

  /** The `@` button's click: append `@` and put the cursor at the new end. */
  function AtButton(st: InputState): InputState {
    st.(message := st.message + "@", cursor := |st.message| + 1)
  }

  /**
   * The zero-delay timer the click arms (with the input mounted): the menu
   * opens with an empty search term, whatever came before the `@`.
   */
  function AtButtonTimerFires(st: InputState): InputState {
    st.(mentionSearch := "", showMentionMenu := true)
  }

  /**
   * The click appends `@` and moves the cursor after it, leaving the menu as
   * it was; once its timer fires the menu is open with an empty term even
   * where typing the `@` would not have opened it (the typing rule accepts
   * the new `@` exactly when the text was empty or ended in a space or
   * newline). Choosing a name then yields the old text, `@`, the name and a
   * space with the cursor at the end.
   */
  lemma AtButtonThenMention(st: InputState, username: string)
    ensures var c := AtButton(st);
      && c.message == st.message + "@" && c.cursor == |st.message| + 1
      && c.showMentionMenu == st.showMentionMenu && c.mentionSearch == st.mentionSearch
      && c.showEmojiPicker == st.showEmojiPicker
    ensures var r := AtButtonTimerFires(AtButton(st));
      && r.message == st.message + "@" && r.cursor == |r.message|
      && r.showMentionMenu && r.mentionSearch == "" && r.showEmojiPicker == st.showEmojiPicker
      && (MentionTrigger(r.message, r.cursor) == Some("") <==>
            st.message == [] || st.message[|st.message| - 1] == ' ' || st.message[|st.message| - 1] == '\n')
      && MentionSelect(r, username).message == st.message + "@" + username + " "
      && MentionSelect(r, username).cursor == |MentionSelect(r, username).message|
      && !MentionSelect(r, username).showMentionMenu
  {
    var r := AtButtonTimerFires(AtButton(st));
    assert Before(r.message, r.cursor) == r.message;
    assert LastIndexOf(r.message, '@') == |st.message|;
    assert r.message[..|st.message|] == st.message;
    assert After(r.message, r.cursor) == [];
  }

  /** After the button and its timer the menu is open even after text such as "hi", where typing `@` keeps it closed. */
  lemma AtButtonOpensMenuAfterWord()
    ensures AtButtonTimerFires(AtButton(InputState("hi", 2, false, false, "x"))) == InputState("hi@", 3, false, true, "")
    ensures MentionTrigger("hi@", 3) == None
  {
    assert LastIndexOf("hi@", '@') == 2;
    assert Before("hi@", 3) == "hi@";
  }

  /** `users.filter(user => user.id !== currentUser)`; a null current user removes no one. */
  function WithoutUser(users: seq<ViewUser>, currentUser: Option<string>): (r: seq<ViewUser>)
    ensures forall m :: m in r <==> m in users && Some(m.id) != currentUser
  {
    if users == [] then []
    else WithoutUser(users[..|users| - 1], currentUser) +
         (if Some(users[|users| - 1].id) != currentUser then [users[|users| - 1]] else [])
  }

  /** `mentionableUsers`, after the `unshift` of the assistant in a room. */
  function Mentionable(users: seq<ViewUser>, currentUser: Option<string>, inRoom: bool): seq<ViewUser> {
    var others := WithoutUser(users, currentUser);
    var ai := FindUser(users, AIAssistantId);
    if inRoom && ai.Some? && !(exists m :: m in others && m.id == AIAssistantId)
    then [ai.value] + others
    else others
  }

  /** The case-insensitive username test of `filteredMentions`. */
  predicate NameMatches(m: ViewUser, search: string) {
    Contains(Lower(m.username), Lower(search))
  }

  function FilterByName(users: seq<ViewUser>, search: string): (r: seq<ViewUser>)
    ensures |r| <= |users|
    ensures forall m :: m in r <==> m in users && NameMatches(m, search)
  {
    if users == [] then []
    else FilterByName(users[..|users| - 1], search) +
         (if NameMatches(users[|users| - 1], search) then [users[|users| - 1]] else [])
  }

  /** `filteredMentions`. */
  function FilteredMentions(users: seq<ViewUser>, currentUser: Option<string>, inRoom: bool, search: string): seq<ViewUser> {
    FilterByName(Mentionable(users, currentUser, inRoom), search)
  }

  /** Filtering by name distributes over concatenation, so the candidates keep their order. */
  lemma {:induction false} FilterByNameDistributes(a: seq<ViewUser>, b: seq<ViewUser>, search: string)
    ensures FilterByName(a + b, search) == FilterByName(a, search) + FilterByName(b, search)
  {
    if b != [] {
      var b' := b[..|b| - 1];
      FilterByNameDistributes(a, b', search);
      assert (a + b)[..|a + b| - 1] == a + b';
      assert (a + b)[|a + b| - 1] == b[|b| - 1];
    } else {
      assert a + b == a;
    }
  }

  /**
   * The candidates are the users other than the current one whose username
   * matches the search, plus the assistant in a room when the current user
   * is the assistant itself: the `unshift` then puts the current user back.
   */
  lemma MentionCandidates(users: seq<ViewUser>, currentUser: Option<string>, inRoom: bool, search: string)
    ensures forall m :: m in FilteredMentions(users, currentUser, inRoom, search) <==>
      && NameMatches(m, search)
      && (|| (m in users && Some(m.id) != currentUser)
          || (inRoom && currentUser == Some(AIAssistantId) && FindUser(users, AIAssistantId) == Some(m)))
    ensures currentUser.Some? && !(inRoom && currentUser == Some(AIAssistantId)) ==>
      forall m :: m in FilteredMentions(users, currentUser, inRoom, search) ==> m.id != currentUser.value
  {
  }

  ghost predicate AtMostOneAI(s: seq<ViewUser>) {
    forall i, j :: 0 <= i < j < |s| && s[i].id == AIAssistantId ==> s[j].id != AIAssistantId
  }

  lemma {:induction false} WithoutUserKeepsAtMostOneAI(users: seq<ViewUser>, currentUser: Option<string>)
    requires AtMostOneAI(users)
    ensures AtMostOneAI(WithoutUser(users, currentUser))
  {
    if users != [] {
      var init := users[..|users| - 1];
      assert AtMostOneAI(init) by {
        forall i, j | 0 <= i < j < |init| && init[i].id == AIAssistantId
          ensures init[j].id != AIAssistantId
        {
          assert users[i] == init[i] && users[j] == init[j];
        }
      }
      WithoutUserKeepsAtMostOneAI(init, currentUser);
      var last := users[|users| - 1];
      if last.id == AIAssistantId {
        forall m | m in init ensures m.id != AIAssistantId {
          var i :| 0 <= i < |init| && init[i] == m;
          assert users[i] == m;
        }
      }
    }
  }

  lemma {:induction false} FilterByNameKeepsAtMostOneAI(users: seq<ViewUser>, search: string)
    requires AtMostOneAI(users)
    ensures AtMostOneAI(FilterByName(users, search))
  {
    if users != [] {
      var init := users[..|users| - 1];
      assert AtMostOneAI(init) by {
        forall i, j | 0 <= i < j < |init| && init[i].id == AIAssistantId
          ensures init[j].id != AIAssistantId
        {
          assert users[i] == init[i] && users[j] == init[j];
        }
      }
      FilterByNameKeepsAtMostOneAI(init, search);
      var last := users[|users| - 1];
      if last.id == AIAssistantId {
        forall m | m in init ensures m.id != AIAssistantId {
          var i :| 0 <= i < |init| && init[i] == m;
          assert users[i] == m;
        }
      }
    }
  }

  /**
   * The assistant is offered at most once, provided the user list itself
   * holds at most one entry with its id: the `unshift` happens only when the
   * filtered list has none.
   */
  lemma MentionAIAtMostOnce(users: seq<ViewUser>, currentUser: Option<string>, inRoom: bool, search: string)
    requires AtMostOneAI(users)
    ensures AtMostOneAI(FilteredMentions(users, currentUser, inRoom, search))
  {
    var others := WithoutUser(users, currentUser);
    WithoutUserKeepsAtMostOneAI(users, currentUser);
    var list := Mentionable(users, currentUser, inRoom);
    assert AtMostOneAI(list) by {
      if list != others {
        forall j | 1 <= j < |list| ensures list[j].id != AIAssistantId {
          assert list[j] == others[j - 1];
        }
      }
    }
    FilterByNameKeepsAtMostOneAI(list, search);
  }
}

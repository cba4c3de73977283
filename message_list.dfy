/**
 * The lookups of `src/components/MessageList.tsx`: the name shown for a
 * sender, whether a message is the assistant's, whether it mentions the
 * reader, and when the "assistant is typing" bubble appears.
 */
module MessageList {
  import opened Strings
  import opened ChatViews
  import AIService

  /** `getUserNameById`: `user?.username || userId`. */
  function UserNameById(users: seq<ViewUser>, userId: string): string {
    var u := FindUser(users, userId);
    if u.Some? && u.value.username != "" then u.value.username else userId
  }

  /**
   * The name comes from the first user with that id, and falls back to the id
   * itself when there is none or its username is empty, even if a later
   * entry with the same id has a name.
   */
  lemma UserNameFromFirstMatch(users: seq<ViewUser>, userId: string)
    ensures (forall u :: u in users ==> u.id != userId) ==> UserNameById(users, userId) == userId
    ensures forall i :: 0 <= i < |users| && users[i].id == userId && (forall j :: 0 <= j < i ==> users[j].id != userId) ==>
      UserNameById(users, userId) == if users[i].username != "" then users[i].username else userId
  {
    forall i | 0 <= i < |users| && users[i].id == userId && (forall j :: 0 <= j < i ==> users[j].id != userId)
      ensures FindUser(users, userId) == Some(users[i])
    {
      FindUserIsFirst(users, userId, i);
    }
  }

  /** The result is never empty for a non-empty id. */
  lemma UserNameNonEmpty(users: seq<ViewUser>, userId: string)
    requires userId != ""
    ensures UserNameById(users, userId) != ""
  {
  }

  /** `isAIMessage`. */
  predicate IsAIMessage(senderId: string) {
    senderId == AIAssistantId
  }

  /** `checkForMention`: the reader's display name, `@AI` or `@everyone`. */
  predicate CheckForMention(users: seq<ViewUser>, currentUserId: string, content: string) {
    || Contains(content, "@" + UserNameById(users, currentUserId))
    || Contains(content, "@AI")
    || Contains(content, "@everyone")
  }

  /** Every message the assistant service reacts to counts as a mention here too. */
  lemma AIMentionIsMention(users: seq<ViewUser>, currentUserId: string, content: string)
    requires AIService.DetectAIMention(content)
    ensures CheckForMention(users, currentUserId, content)
  {
    AIService.DetectIffAISpace(content);
    assert OccursAt("@AI ", "@AI", 0);
    ContainsAt("@AI ", "@AI", 0);
    ContainsTransitive(content, "@AI ", "@AI");
  }

  /** A message that contains none of the three markers is not a mention. */
  lemma NoMarkerNoMention(users: seq<ViewUser>, currentUserId: string, content: string)
    requires '@' !in content
    ensures !CheckForMention(users, currentUserId, content)
  {
    forall sub: string | |sub| > 0 && sub[0] == '@' ensures !Contains(content, sub) {
      ContainsIffOccurs(content, sub);
    }
    assert ("@" + UserNameById(users, currentUserId))[0] == '@';
  }

  /** The `mentionedUser` flag of a bubble. */
  predicate MentionFlag(users: seq<ViewUser>, currentUserId: string, m: MessageExt) {
    CheckForMention(users, currentUserId, m.content) && m.sender != currentUserId
  }

  /** The reader's own messages are never flagged. */
  lemma OwnMessagesNotFlagged(users: seq<ViewUser>, currentUserId: string, m: MessageExt)
    ensures m.sender == currentUserId ==> !MentionFlag(users, currentUserId, m)
    ensures m.sender != currentUserId ==> (MentionFlag(users, currentUserId, m) <==> CheckForMention(users, currentUserId, m.content))
  {
  }

  /** The typing bubble: generating, with a non-empty list whose last entry is not loading. */
  predicate TypingIndicator(generating: bool, messages: seq<MessageExt>) {
    generating && |messages| > 0 && !messages[|messages| - 1].isLoading
  }

  /**
   * While the assistant's placeholder is the last message the bubble is
   * hidden: the placeholder itself shows as loading.
   */
  lemma TypingHiddenAroundPlaceholder(list: seq<MessageExt>, id: string, roomId: string, now: int)
    ensures !TypingIndicator(true, list + [AIService.Placeholder(id, roomId, now)])
  {
  }

  /**
   * Once the reply has replaced a placeholder with a fresh id, the list alone
   * would show the bubble again; it is clearing the generating flag in the
   * same callback that hides it.
   */
  lemma TypingHiddenOnlyByClearedFlag(list: seq<MessageExt>, id: string, roomId: string, prompt: string, t0: int, t1: int)
    requires forall j :: 0 <= j < |list| ==> list[j].id != id
    ensures var after := AIService.ReplaceById(list + [AIService.Placeholder(id, roomId, t0)], id, AIService.Reply(id, roomId, prompt, t1));
      TypingIndicator(true, after) && !TypingIndicator(false, after)
  {
    var withP := list + [AIService.Placeholder(id, roomId, t0)];
    assert forall j :: 0 <= j < |list| ==> withP[j].id != id;
    assert withP[|list|].id == id;
    assert AIService.FindIndexById(withP, id) == |list|;
  }
}

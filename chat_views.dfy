/**
 * The store shape that the chat components assume. `ChatWindow.tsx`,
 * `AIService.tsx`, `NotificationService.tsx`, `MockDataService.tsx`,
 * `MessageList.tsx` and `MessageInput.tsx` read `rooms`, `activeType`,
 * `ollamaIsGenerating` and `isConnected` and call `setMessages`, none of which
 * `src/store/chatStore.ts` defines; they are modelled over this store of
 * their own rather than over the chat store's state.
 */
module ChatViews {
  import opened Strings

  /** `MessageExtended.status`. */
  datatype Status = Sending | Sent | Read

  /**
   * `MessageExtended` of `NotificationService.tsx`. An absent optional flag
   * reads as `false` and an absent status as `None`. The timestamp is the
   * millisecond value of the ISO string.
   */
  datatype MessageExt = MessageExt(
    id: string,
    content: string,
    sender: string,
    timestamp: int,
    isLoading: bool,
    roomId: Option<string>,
    isSystemMessage: bool,
    status: Option<Status>)

  datatype ViewUser = ViewUser(id: string, username: string, online: bool)

  datatype Room = Room(id: string, name: string, description: string, membersCount: nat, createdBy: string, createdAt: string)

  /** `activeType`. */
  datatype ChatKind = UserChat | RoomChat

  const AIAssistantId := "ai-assistant"

  /** `state.messages[chatId] || []`. */
  function MessagesOf(messages: map<string, seq<MessageExt>>, chatId: string): (r: seq<MessageExt>)
    ensures chatId !in messages ==> r == []
  {
    if chatId in messages then messages[chatId] else []
  }

  /** `users.find(u => u.id === id)`. */
  function FindUser(users: seq<ViewUser>, id: string): (r: Option<ViewUser>)
    ensures r.Some? ==> r.value in users && r.value.id == id
    ensures r.None? ==> forall u :: u in users ==> u.id != id
  {
    if users == [] then None
    else if users[0].id == id then Some(users[0])
    else FindUser(users[1..], id)
  }

  /** `find` returns the entry at the first index whose id matches. */
  lemma {:induction false} FindUserIsFirst(users: seq<ViewUser>, id: string, i: nat)
    requires i < |users| && users[i].id == id
    requires forall j :: 0 <= j < i ==> users[j].id != id
    ensures FindUser(users, id) == Some(users[i])
  {
    if i > 0 {
      FindUserIsFirst(users[1..], id, i - 1);
    }
  }

  /** `rooms.find(r => r.id === id)`. */
  function FindRoom(rooms: seq<Room>, id: string): (r: Option<Room>)
    ensures r.Some? ==> r.value in rooms && r.value.id == id
    ensures r.None? ==> forall x :: x in rooms ==> x.id != id
  {
    if rooms == [] then None
    else if rooms[0].id == id then Some(rooms[0])
    else FindRoom(rooms[1..], id)
  }

  /** The fields of the store that these components read and write. */
  class ViewStore {
    var users: seq<ViewUser>
    var rooms: seq<Room>
    var messages: map<string, seq<MessageExt>>
    var ollamaIsGenerating: bool
    var isConnected: bool

    constructor (users: seq<ViewUser>, rooms: seq<Room>)
      ensures this.users == users && this.rooms == rooms
      ensures messages == map[] && !ollamaIsGenerating && !isConnected
    {
      this.users, this.rooms := users, rooms;
      messages, ollamaIsGenerating, isConnected := map[], false, false;
    }

    /** `setMessages(chatId, list)`: replace one chat's list. */
    method SetMessages(chatId: string, list: seq<MessageExt>)
      modifies this`messages
      ensures messages == old(messages)[chatId := list]
    {
      messages := messages[chatId := list];
    }

    /** `setOllamaIsGenerating(b)`. */
    method SetGenerating(b: bool)
      modifies this`ollamaIsGenerating
      ensures ollamaIsGenerating == b
    {
      ollamaIsGenerating := b;
    }
  }
}

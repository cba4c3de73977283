# A verified model of a React chat client and its WebSocket relay

This project models the core of a small chat application in Dafny:

- **The relay** (`server.js`) keeps a process-wide map from user id to connection. It:
  - binds an id on a `login` frame and broadcasts `userStatus` to every OPEN connection;
  - forwards a `message` frame to the connection bound to its target;
  - unbinds the connection's last id when the connection closes.
- **The chat service** (`src/services/chatService.ts`) is the client's socket wrapper. It:
  - logs in when a connection opens;
  - retries at most five times after a close;
  - sends private and room frames only while connected;
  - dispatches inbound frames to seven callback lists by type.
- **The zustand stores:**
  - `chatStore.ts`: the chat state and its `WebSocketConnection` singleton;
  - `authStore.ts`: the mock accounts, with registration, login, logout and profile update;
  - `themeStore.ts`: the mode and the colour scheme.
- **The conversation manager** of `ollamaService.ts`:
  - conversations in insertion order;
  - send, stream, clear, delete;
  - the model-name normalisation and the progress loop of `pullModel`.
- **Component logic with decisions worth proving**, each written as functions over the component's state:
  - the `@`-mention menu, mention and emoji insertion (`MessageInput.tsx`);
  - `@AI` detection and stripping, and the placeholder-then-reply protocol (`AIService.tsx`);
  - notification text, `sent` marking and the offline queue (`NotificationService.tsx`);
  - send routing, mark-as-read and which store changes notify (`ChatWindow.tsx`);
  - sender names and mention flags (`MessageList.tsx`);
  - the mock-data seeding (`MockDataService.tsx`);
  - the registration form (`Register.tsx`);
  - model-name parsing, colours and filtering (`ModelSelector.tsx`).

Objects whose fields the source updates in place are classes. In the following classes each method is proved equal to a pure step function of the old state, and the properties are proved about those functions:
- `Relay.RelayServer`;
- `ChatStore.Store` (for its state record);
- `AuthStore.Store`;
- `ThemeStore.Store`;
- `Ollama.OllamaService`.

In `ChatClient.ChatService`, `ChatStore.WebSocketConnection`, `NotificationService.OfflineQueue` and `ChatViews.ViewStore` the methods state their new fields directly in their postconditions. Pure functions (`TryReconnectStep`, `Calls`, `DrainFrames`) and the lemmas about them cover the reconnect policy, the callback order and the drain.

Several JavaScript behaviours are modelled explicitly:
- truthiness: `""` and `null` are false;
- `Map` insertion order, as a key sequence beside a map;
- object spread, as map union;
- `substring` clamping;
- `\s` and `\w`;
- ASCII case mapping.

Some behaviours arrive from outside the code, and each becomes an argument or a method:
- The clock (`Date.now()`, `new Date()`) is a parameter `now`, in milliseconds.
- Fresh uuids and random tokens are parameters.
- Timers and socket events are methods that the environment calls: `OnOpen`, `OnClose`, `ReconnectTimerFires`, `CompleteAIResponse`.
- Replies of the Ollama server are parameters.

Two places where the code behaves other than its comments suggest are faithfully modelled:
- **The first login sends no frame.** `chatStore.ts` `login` calls `connect()` and then `send` at once. The new socket is still CONNECTING, so `send` transmits nothing and opens a second socket instead (`ChatStore.FirstLoginSendsNoFrame`).
- **A stale close unbinds a newer login.** When a relay connection closes it deletes its `userId` key even when a newer connection has since logged in under that id (`Relay.StaleCloseUnbindsNewer`).

The components read `rooms`, `activeType`, `ollamaIsGenerating` and `isConnected`, and call `setMessages`. `chatStore.ts` does not define any of these. They are modelled over a separate store, `ChatViews.ViewStore`, that has those fields.

## Model

The rows name the members whose contracts state the properties. A pure step function that defines an operation has no row of its own when its meaning is stated by the lemma rows about it. Examples are `MessageInput.HandleInputChange`, `MentionSelect`, `EmojiSelect`, `Submit`, `AtButton` and `AtButtonTimerFires`; `ChatWindow.SendRoute`, `HandleFocus`, `ChatName` and `Raise`; `AuthStore.RegisterStep`, `LoginStep` and `UpdateProfileStep`; and `Ollama.Create`, `Send`, `Stream`, `Clear` and `Delete`. Small helpers, such as those of the `Strings` module, have no row either.

| member | source | states |
|---|---|---|
| Relay.StepsPreserveWellFormed | server.js:17-56 | every frame and every close keeps the key order of `clients` duplicate-free and in agreement with the map |
| Relay.FanoutMembers | server.js:60-69 | a status broadcast reaches a connection exactly when some id is bound to it and it is OPEN, and carries exactly the status frame |
| Relay.FanoutLength | server.js:60-69 | a broadcast sends at most one frame per bound id |
| Relay.LoginBinds | server.js:22-28 | a login binds the id to the sending connection, replacing an earlier binding and leaving every other binding as it was; the id is appended to the key order only when new; the connection's `userId` becomes the id, other connections' are kept |
| Relay.LoginBroadcasts | server.js:22-28 | after a login exactly the OPEN bound connections get `online: true`, the new one included when OPEN; the earlier log is kept |
| Relay.MessageForwarding | server.js:31-43 | a `message` frame is forwarded only to the target's connection, exactly when it is bound and OPEN; nothing else changes |
| Relay.OtherFramesIgnored | server.js:17-45 | a frame of any other type changes nothing |
| Relay.CloseWithoutLogin | server.js:48-55 | closing a connection without a truthy `userId` only marks it closed |
| Relay.CloseUnbinds | server.js:48-55 | closing a logged-in connection removes its last id and sends `online: false` to exactly the remaining OPEN bound connections |
| Relay.StaleCloseUnbindsNewer | server.js:22-55 | two logins under one id on two connections, then closing the first, leaves the id unbound although the second is open |
| Relay.TwoIdsOneConnection | server.js:14-55 | a connection that logs in as x then y keeps x bound after it closes; only y is removed |
| Relay.RelayServer.constructor | server.js:10 | the server starts with no clients, connections or deliveries |
| Relay.RelayServer.Accept | server.js:12-14 | a new connection is OPEN, fresh, and has no `userId` |
| Relay.RelayServer.BroadcastUserStatus | server.js:60-69 | the loop over `clients` sends exactly the broadcast specified by `Fanout`, in key order |
| Relay.RelayServer.Receive | server.js:17-45 | the handler's new state is the specification step `OnFrame` of the old state |
| Relay.RelayServer.Close | server.js:48-55 | the close handler's new state is the specification step `OnClose` of the old state |
| ChatClient.ChannelFor | src/services/chatService.ts:258-290 | exactly the eight handled frame types select a list: the three message types the message list, the two room types the room list, `userStatus`, `rooms_list` and `error` each their own; connect and disconnect lists are never chosen |
| ChatClient.Calls | src/services/chatService.ts:258-290 | `forEach` calls each callback once, in registration order, with the same argument |
| ChatClient.WithoutRemovesOnlyThat | src/services/chatService.ts:293-298 | unsubscribing removes every registration of that callback and keeps every other one as often as before |
| ChatClient.WithoutDistributes | src/services/chatService.ts:293-298 | unsubscribing works piecewise over the list, so the remaining callbacks keep their order |
| ChatClient.SubscribeThenUnsubscribe | src/services/chatService.ts:293-298 | subscribing a new callback and calling the returned function restores the list |
| ChatClient.WithoutAbsent | src/services/chatService.ts:293-298 | unsubscribing a callback that is not registered leaves the list as it is |
| ChatClient.AttemptsNeverExceedCap | src/services/chatService.ts:115-131 | under any sequence of closes, timer firings, opens and disconnects the attempt counter stays at most 5 |
| ChatClient.AtMostFiveRetriesWithoutOpen | src/services/chatService.ts:91-131 | with no open in between every armed timer adds exactly one attempt, and at most 5 minus the attempts so far are armed |
| ChatClient.ChatService.constructor | src/services/chatService.ts:41-53 | no socket, not connected, no user, no timer, zero attempts, all callback lists empty |
| ChatClient.ChatService.Fire | src/services/chatService.ts:78-104 | the calls logged are those of the list's callbacks, in order, with the argument |
| ChatClient.ChatService.Connect | src/services/chatService.ts:57-69 | an open connection is first disconnected; the id is stored and one new, not yet connected socket exists; attempts and callbacks are kept |
| ChatClient.ChatService.Disconnect | src/services/chatService.ts:134-147 | the socket is closed if present, the timer is cleared, the user is forgotten; attempts are kept |
| ChatClient.ChatService.Send | src/services/chatService.ts:249-255 | a frame is sent exactly when a socket exists and it is connected, otherwise it fails with the source's message |
| ChatClient.ChatService.Login | src/services/chatService.ts:150-157 | a `login` frame with the user id is sent exactly when connected with a truthy user id |
| ChatClient.ChatService.OnOpen | src/services/chatService.ts:69-80 | the service becomes connected, attempts reset to 0, the login frame is sent when there is a user, and connect callbacks run |
| ChatClient.ChatService.TryReconnect | src/services/chatService.ts:115-131 | the timer and attempt fields move by the reconnect policy `TryReconnectStep` |
| ChatClient.ChatService.OnClose | src/services/chatService.ts:91-100 | the service is disconnected, disconnect callbacks run, and the reconnect policy takes one step |
| ChatClient.ChatService.OnError | src/services/chatService.ts:102-106 | the error callbacks get the error's text |
| ChatClient.ChatService.ReconnectTimerFires | src/services/chatService.ts:123-130 | the timer clears itself and reconnects as the same user exactly when a truthy user id is still set |
| ChatClient.ChatService.SendPrivateMessage | src/services/chatService.ts:160-176 | succeeds exactly when connected with a user, returning the fresh id and sending one private frame from that user; otherwise "Not connected" and nothing sent |
| ChatClient.ChatService.SendRoomMessage | src/services/chatService.ts:179-195 | the same for a room frame |
| ChatClient.ChatService.JoinRoom | src/services/chatService.ts:198-208 | a join frame exactly when connected with a user, else "Not connected" and nothing sent |
| ChatClient.ChatService.LeaveRoom | src/services/chatService.ts:211-221 | a leave frame exactly when connected with a user, else "Not connected" and nothing sent |
| ChatClient.ChatService.CreateRoom | src/services/chatService.ts:224-235 | a create frame with name, description and creator exactly when connected with a user |
| ChatClient.ChatService.GetRooms | src/services/chatService.ts:238-246 | a `get_rooms` frame exactly when connected, whether or not a user is set |
| ChatClient.ChatService.HandleMessage | src/services/chatService.ts:258-290 | exactly the list chosen by the frame type receives the frame's argument; unknown types reach no callback |
| ChatClient.ChatService.Subscribe | src/services/chatService.ts:293-346 | `on*` appends the callback to its own list only |
| ChatClient.ChatService.Unsubscribe | src/services/chatService.ts:293-346 | the returned function removes that callback from its own list only |
| ChatStore.Append | src/store/chatStore.ts:256-274 | the message is appended to that chat's list (an absent list counts as empty) and every other chat is unchanged |
| ChatStore.SetOnline | src/store/chatStore.ts:276-282 | the users with the id get the new flag, all others are kept, length and order unchanged |
| ChatStore.FindOther | src/store/chatStore.ts:214 | the result is a table user with the id, or none has it |
| ChatStore.ReceiveAppendsOne | src/store/chatStore.ts:256-274 | `receiveMessage` appends exactly one message from that user to that user's list and changes nothing else |
| ChatStore.SetOnlineOnlyFlag | src/store/chatStore.ts:172-282 | a status update changes only the `online` flag of the users with that id |
| ChatStore.SetOnlineIdempotent | src/store/chatStore.ts:276-282 | repeating a status update changes nothing more |
| ChatStore.SendMessageNeedsChatAndUser | src/store/chatStore.ts:220-223 | without an active chat or a truthy current user `sendMessage` changes nothing and sends nothing |
| ChatStore.SendMessageAppendsAndSends | src/store/chatStore.ts:224-253 | otherwise one message from the current user is appended to the active chat and a `message` frame with the same id is sent |
| ChatStore.SelectChatOnlyKnown | src/store/chatStore.ts:213-218 | `selectChat` selects a user of the fixed table or changes nothing |
| ChatStore.SelectChatUsesFixedTable | src/store/chatStore.ts:213-218 | a known id is selected with the fixed table's record even after status updates |
| ChatStore.IncomingOnlyFromActiveChat | src/store/chatStore.ts:143-170 | an incoming frame is stored, under its sender, exactly when it comes from the active chat |
| ChatStore.LogoutClears | src/store/chatStore.ts:188-211 | logout clears user, chat, messages and socket but keeps `users`; logging in again starts with no messages |
| ChatStore.WebSocketConnection.constructor | src/store/chatStore.ts:59-62 | no socket and no callbacks |
| ChatStore.WebSocketConnection.Connect | src/store/chatStore.ts:71-108 | an OPEN socket is returned as it is; otherwise a new CONNECTING socket replaces it |
| ChatStore.WebSocketConnection.On | src/store/chatStore.ts:110-115 | the callback is appended to its event's list, created when absent |
| ChatStore.WebSocketConnection.Emit | src/store/chatStore.ts:117-120 | the event's callbacks are called in order with the data; an unknown event calls none |
| ChatStore.WebSocketConnection.Send | src/store/chatStore.ts:122-129 | a frame is transmitted exactly when the socket is OPEN; otherwise nothing is transmitted and a new socket is created |
| ChatStore.WebSocketConnection.Close | src/store/chatStore.ts:131-136 | no socket afterwards |
| ChatStore.WebSocketConnection.OnOpen | src/store/chatStore.ts:79-82 | the socket is OPEN and `open` is emitted |
| ChatStore.WebSocketConnection.OnMessage | src/store/chatStore.ts:84-91 | the frame is emitted under its own type |
| ChatStore.WebSocketConnection.OnClose | src/store/chatStore.ts:93-100 | the socket is dropped, `close` is emitted and one more reconnect timer is pending, with no cap |
| ChatStore.WebSocketConnection.OnError | src/store/chatStore.ts:102-105 | `error` is emitted with the error |
| ChatStore.WebSocketConnection.ReconnectTimerFires | src/store/chatStore.ts:99 | a pending timer fires and calls `connect` |
| ChatStore.ConnectionSingleton.constructor | src/store/chatStore.ts:58 | no instance yet |
| ChatStore.ConnectionSingleton.GetInstance | src/store/chatStore.ts:64-69 | the first call creates a fresh, empty wrapper; later calls return that same object |
| ChatStore.Store.constructor | src/store/chatStore.ts:142-186 | the store starts in its initial state and registers the `message` and `userStatus` listeners |
| ChatStore.Store.Login | src/store/chatStore.ts:188-199 | the state records the user; the login frame is transmitted only if the socket was already OPEN (which is kept), else nothing is transmitted, two sockets are created and the second, still CONNECTING, is current |
| ChatStore.Store.OnMessageEvent | src/store/chatStore.ts:144-170 | the `message` listener updates the state by the incoming-message rule |
| ChatStore.Store.OnStatusEvent | src/store/chatStore.ts:172-179 | the `userStatus` listener sets the `online` flag of the users with that id and changes nothing else |
| ChatStore.Store.Logout | src/store/chatStore.ts:201-211 | the connection is closed and the state cleared |
| ChatStore.Store.SendMessage | src/store/chatStore.ts:220-254 | the state follows `sendMessage`; its frame is transmitted only over an OPEN socket, and a frame meeting a socket that is not OPEN makes a new CONNECTING socket current |
| ChatStore.FirstLoginSendsNoFrame | src/store/chatStore.ts:140-199 | the first login on a fresh connection transmits no frame and leaves two sockets created |
| AuthStore.PublicView | src/store/authStore.ts:108 | the copy has exactly the public fields of the record that are present, with their values, and never the password |
| AuthStore.RegisterDuplicateFails | src/store/authStore.ts:61-83 | registering a taken email fails with "Email already registered" and changes neither table nor session |
| AuthStore.RegisterStores | src/store/authStore.ts:54-80 | a registration adds one record under the email, with id = old count + 1 and the password, and logs in that record without its password |
| AuthStore.LoginErrors | src/store/authStore.ts:93-116 | an unknown email and a wrong password fail with their own messages and set no user |
| AuthStore.LoginSuccess | src/store/authStore.ts:103-112 | a successful login copies the record's public fields, never the password, and sets the token |
| AuthStore.ActionsEndNotLoading | src/store/authStore.ts:54-172 | every async action ends with `isLoading` false and an error exactly when its own check failed |
| AuthStore.UpdateProfileErrors | src/store/authStore.ts:133-170 | without a user, or when the new email belongs to another record, the update fails and changes nothing |
| AuthStore.EmailChangeMovesRecord | src/store/authStore.ts:139-167 | an email change moves the merged record to the new key with the new email; the size and every other record are kept |
| AuthStore.LogoutAndClearError | src/store/authStore.ts:119-174 | logout clears the session and keeps the table; `clearError` clears only the error |
| AuthStore.InitialIdsWellFormed | src/store/authStore.ts:30-43 | the seeded records have the ids 1..n, no two alike |
| AuthStore.AddNextIdKeeps | src/store/authStore.ts:66 | adding a record with id = count + 1 keeps the ids 1..n and distinct |
| AuthStore.ReplaceSameIdKeeps | src/store/authStore.ts:147-161 | moving a record with its id to the same or a fresh key keeps the ids well formed |
| AuthStore.RegisterKeepsIdsWellFormed | src/store/authStore.ts:66-68 | the id rule of `register` never repeats an id while records come only from it |
| AuthStore.UpdateKeepsIdsWellFormed | src/store/authStore.ts:142-162 | an update without `id` keeps the ids well formed, given the user's record is in the table |
| AuthStore.Store.constructor | src/store/authStore.ts:45-53 | the store starts with the seeded table and no session |
| AuthStore.Store.Register | src/store/authStore.ts:54-84 | the new state is `RegisterStep` of the old one |
| AuthStore.Store.Login | src/store/authStore.ts:86-117 | the new state is `LoginStep` of the old one |
| AuthStore.Store.Logout | src/store/authStore.ts:119-125 | the new state is `LogoutStep` of the old one |
| AuthStore.Store.UpdateProfile | src/store/authStore.ts:127-172 | the new state is `UpdateProfileStep` of the old one |
| AuthStore.Store.ClearError | src/store/authStore.ts:174 | the new state is `ClearErrorStep` of the old one |
| ThemeStore.TableIsTotal | src/store/themeStore.ts:5-70 | the class table has exactly the five scheme names as keys, so every scheme has its entry |
| ThemeStore.Toggled | src/store/themeStore.ts:84-86 | toggling always changes the mode |
| ThemeStore.ToggleTwice | src/store/themeStore.ts:84-86 | toggling twice gives the mode back |
| ThemeStore.Store.constructor | src/store/themeStore.ts:82-83 | light mode, blue scheme |
| ThemeStore.Store.ToggleMode | src/store/themeStore.ts:84-86 | the mode flips, the scheme is kept |
| ThemeStore.Store.SetColorScheme | src/store/themeStore.ts:87 | the scheme is set, the mode is kept |
| ThemeStore.ToggleTwiceRestores | src/store/themeStore.ts:84-86 | two toggles on the store restore its mode and never touch the scheme |
| Ollama.NormalizeByColon | src/services/ollamaService.ts:181-194 | a name with ':' is kept and one without gets ":latest"; the ":latest" test is subsumed |
| Ollama.NormalizeHasColon | src/services/ollamaService.ts:181-194 | a normalised name always has a tag |
| Ollama.NormalizeIdempotent | src/services/ollamaService.ts:181-194 | normalising twice is normalising once |
| Ollama.NonBlank | src/services/ollamaService.ts:161 | the filter keeps only non-blank lines of the input |
| Ollama.NonBlankKeepsEvery | src/services/ollamaService.ts:161 | every non-blank input line is kept |
| Ollama.NonBlankDistributes | src/services/ollamaService.ts:161 | the filter works line by line, so the kept lines keep their input order |
| Ollama.LinesAreNonBlankAndSingle | src/services/ollamaService.ts:161 | every line of a chunk is non-blank and holds no newline |
| Ollama.NonBlankKeepsClean | src/services/ollamaService.ts:161 | a list with no blank line passes the filter unchanged |
| Ollama.CleanChunkRoundTrip | src/services/ollamaService.ts:161 | a chunk without blank lines is its lines joined back with newlines |
| Ollama.Parsed | src/services/ollamaService.ts:262-272 | at most one status per line reaches `onProgress` |
| Ollama.ParsedHasSuccess | src/services/ollamaService.ts:262-272 | "success" is reported exactly when some line parsed to it |
| Ollama.PullModel | src/services/ollamaService.ts:235-284 | a failed response fails with its text and reports nothing; otherwise, when the optional progress callback is given, every parsed status is reported to it in order, and without one nothing is reported; the result is true exactly when some parsed status is "success" |
| Ollama.ValuesInOrder | src/services/ollamaService.ts:365-367 | the listing holds the conversation of each key, in insertion order |
| Ollama.OperationsPreserveWellFormed | src/services/ollamaService.ts:351-482 | `set` and `delete` keep key order and map in agreement |
| Ollama.CreateThenGet | src/services/ollamaService.ts:327-360 | a created conversation is found under its id, with the system prompt as its only message when given and the model normalised |
| Ollama.UnknownIdChangesNothing | src/services/ollamaService.ts:377-464 | send, stream and clear on an unknown id fail (or report false) and change nothing |
| Ollama.SendAppendsTwo | src/services/ollamaService.ts:372-408 | a successful send grows the history by the user message and the reply; a failed call keeps only the user message |
| Ollama.StreamStoresConcatenation | src/services/ollamaService.ts:413-455 | a completed stream stores the user message and the in-order concatenation of the chunks |
| Ollama.ConcatLength | src/services/ollamaService.ts:431-441 | the accumulated response is as long as all chunks together |
| Ollama.ConcatHasChunks | src/services/ollamaService.ts:431-441 | each chunk sits in the response right after the chunks before it |
| Ollama.ClearRules | src/services/ollamaService.ts:460-476 | clearing keeps only a leading system message when asked, else empties the history; clearing twice is clearing once |
| Ollama.DeleteRemoves | src/services/ollamaService.ts:481-483 | delete reports whether the id existed, and nothing is found under it afterwards |
| Ollama.DeleteUnlists | src/services/ollamaService.ts:365-483 | deleting a listed id cuts exactly its entry out of the listing |
| Ollama.DeleteUnknownKeepsListing | src/services/ollamaService.ts:481-483 | deleting an unknown id leaves the listing as it was |
| Ollama.OllamaService.constructor | src/services/ollamaService.ts:76-82 | no conversations |
| Ollama.OllamaService.CreateConversation | src/services/ollamaService.ts:327-353 | the new state and id are `Create` of the old state |
| Ollama.OllamaService.SendMessage | src/services/ollamaService.ts:372-408 | the new state and result are `Send` of the old state |
| Ollama.OllamaService.StreamMessage | src/services/ollamaService.ts:413-455 | the new state is `Stream` of the old one, and every chunk is yielded, in order, for a known id |
| Ollama.OllamaService.ClearConversation | src/services/ollamaService.ts:460-476 | the new state and result are `Clear` of the old state |
| Ollama.OllamaService.DeleteConversation | src/services/ollamaService.ts:481-483 | the new state and result are `Delete` of the old state |
| ModelSelector.RunStart | src/components/ui/ModelSelector.tsx:25 | the start of the maximal run of `[\w-]` characters ending at the given index |
| ModelSelector.RunStartIsLeftmost | src/components/ui/ModelSelector.tsx:25 | no run of `[\w-]` ending there starts earlier |
| ModelSelector.MatchUsesLastDash | src/components/ui/ModelSelector.tsx:25 | any match of `/([\w-]+)-([\w]+)$/` splits at the last '-' |
| ModelSelector.SizeMatchIsRegex | src/components/ui/ModelSelector.tsx:25 | the computed split is the regex's leftmost match, and none is reported exactly when the regex matches nowhere |
| ModelSelector.FullNameBeforeColon | src/components/ui/ModelSelector.tsx:21-22 | `fullName` is the text before the first ':', or the whole name |
| ModelSelector.ParseModelInfoSplitsSize | src/components/ui/ModelSelector.tsx:20-40 | on a match the family and size are the two groups; otherwise the family is the whole name and there is no size |
| ModelSelector.FirstLetters | src/components/ui/ModelSelector.tsx:43-48 | at most one letter per word |
| ModelSelector.FirstLettersOfWords | src/components/ui/ModelSelector.tsx:43-48 | non-empty words give exactly their upper-cased first letters, in order |
| ModelSelector.InitialsOfJoin | src/components/ui/ModelSelector.tsx:43-48 | a family of dash-separated non-empty words has their upper-cased first letters as its initials |
| ModelSelector.FirstLettersDistributes | src/components/ui/ModelSelector.tsx:43-48 | the initials of a list of segments are those of its two parts, in order |
| ModelSelector.InitialsSkipEmpty | src/components/ui/ModelSelector.tsx:43-48 | an empty segment anywhere in the list contributes no letter |
| ModelSelector.InitialsLeadingDash | src/components/ui/ModelSelector.tsx:43-48 | the initials of "-a" are "A" and those of "" are empty |
| ModelSelector.FirstContained | src/components/ui/ModelSelector.tsx:51-89 | the answer is a table value or the fallback |
| ModelSelector.FirstContainedIsFirst | src/components/ui/ModelSelector.tsx:51-89 | the value of the first key contained in the name wins |
| ModelSelector.FirstContainedNone | src/components/ui/ModelSelector.tsx:51-89 | when no key is contained the fallback is returned |
| ModelSelector.FirstHit | src/components/ui/ModelSelector.tsx:51-69 | the index of the first contained key, or the table size |
| ModelSelector.FirstContainedByHit | src/components/ui/ModelSelector.tsx:51-69 | the lookup answers the value at the first hit, or the fallback |
| ModelSelector.CodellamaGetsLlamaColor | src/components/ui/ModelSelector.tsx:51-69 | every codellama family gets llama's colour, since 'llama' comes first |
| ModelSelector.ShadowedEntryNeverChosen | src/components/ui/ModelSelector.tsx:51-69 | an entry whose key contains an earlier key is never chosen, when its value is its own |
| ModelSelector.CodellamaEntryUnreachable | src/components/ui/ModelSelector.tsx:51-69 | the codellama colour is never returned |
| ModelSelector.SizeClass | src/components/ui/ModelSelector.tsx:72-89 | no class for a missing or empty size, else the first contained key's class, or gray |
| ModelSelector.SizeClassFallback | src/components/ui/ModelSelector.tsx:72-89 | a size containing none of the keys gets the gray class |
| ModelSelector.MatchingModels | src/components/ui/ModelSelector.tsx:142-152 | exactly the models whose lower-cased name contains the lower-cased term |
| ModelSelector.FilteredModels | src/components/ui/ModelSelector.tsx:142-152 | a blank term shows every model, any other term the matching ones |
| ModelSelector.MatchingDistributes | src/components/ui/ModelSelector.tsx:142-152 | filtering keeps the models' original order |
| MessageInput.MentionTriggerIff | src/components/MessageInput.tsx:67-89 | the menu opens with term t exactly when some '@' before the cursor starts a word within 20 characters and t lies between it and the cursor; t holds no '@' and at most 19 characters |
| MessageInput.HandleInputChangeOpensMenu | src/components/MessageInput.tsx:67-89 | typing stores text and cursor, opens the menu exactly when such an '@' exists with its term, and otherwise keeps the old term |
| MessageInput.MentionSelectRewrites | src/components/MessageInput.tsx:135-161 | a chosen mention replaces '@' and the partial term by '@', the name and a space, keeps the text after the cursor, puts the cursor after the space, and closes the menu |
| MessageInput.EmojiSelectInserts | src/components/MessageInput.tsx:111-132 | an emoji is inserted at the cursor with both sides kept and the cursor moved past it; a cursor past the end appends |
| MessageInput.SubmitSendsAndClears | src/components/MessageInput.tsx:56-64 | the text is sent exactly when enabled and not blank, and then cleared; a second submit sends nothing |
| MessageInput.AtButtonThenMention | src/components/MessageInput.tsx:281-297 | the click appends '@' and moves the cursor after it; after its timer the menu is open with an empty search whatever preceded the '@' (the typing rule would accept it only after empty text or white space), and a chosen name completes it |
| MessageInput.AtButtonOpensMenuAfterWord | src/components/MessageInput.tsx:281-297 | after "hi" the button and its timer open the menu with an empty search although typing '@' there leaves the rule closed |
| MessageInput.WithoutUser | src/components/MessageInput.tsx:40-42 | exactly the users other than the current one |
| MessageInput.FilterByName | src/components/MessageInput.tsx:46-53 | exactly the users whose lower-cased username contains the search |
| MessageInput.FilterByNameDistributes | src/components/MessageInput.tsx:46-53 | the candidates keep their order |
| MessageInput.MentionCandidates | src/components/MessageInput.tsx:40-53 | a candidate is another user whose name matches, or the assistant in a room when the current user is the assistant itself |
| MessageInput.WithoutUserKeepsAtMostOneAI | src/components/MessageInput.tsx:40-42 | dropping the current user keeps at most one assistant entry |
| MessageInput.FilterByNameKeepsAtMostOneAI | src/components/MessageInput.tsx:46-53 | filtering keeps at most one assistant entry |
| MessageInput.MentionAIAtMostOnce | src/components/MessageInput.tsx:40-53 | the assistant is offered at most once when the user list holds at most one entry with its id |
| AIService.StripAI | src/components/AIService.tsx:57 | the global replace never lengthens the text |
| AIService.SecondAlternativeNeverWins | src/components/AIService.tsx:57 | wherever `@AI Assistant\s+` could match, `@AI\s+` already matches |
| AIService.MentionDropped | src/components/AIService.tsx:57 | a match drops '@AI' and its whole white-space run |
| AIService.StripKeepsAtFree | src/components/AIService.tsx:57 | text without '@' passes through unchanged |
| AIService.WordAfterMentionKept | src/components/AIService.tsx:57 | the word after a match is kept |
| AIService.AssistantIsKept | src/components/AIService.tsx:57 | "@AI Assistant" loses only "@AI" and the space; "Assistant" stays |
| AIService.StripChangesIffMatch | src/components/AIService.tsx:57 | the text changes exactly when some '@AI' is followed by white space, and then it gets shorter |
| AIService.DetectIffAISpace | src/components/AIService.tsx:55 | detection is equivalent to containing "@AI "; the second test adds nothing |
| AIService.DetectedMentionIsStripped | src/components/AIService.tsx:53-62 | a detected mention always shortens the prompt |
| AIService.FindIndexById | src/components/AIService.tsx:32 | the first index with the id, or -1 exactly when none has it |
| AIService.ReplaceByIdInPlace | src/components/AIService.tsx:34-45 | replacing by id changes exactly the first entry with that id, or nothing when none has it |
| AIService.PlaceholderThenReply | src/components/AIService.tsx:15-45 | an appended placeholder with a fresh id is exactly the entry the reply replaces |
| AIService.GenerateAIResponse | src/components/AIService.tsx:6-28 | without an assistant user nothing changes; otherwise the loading placeholder is appended to the room and generation is flagged |
| AIService.CompleteAIResponse | src/components/AIService.tsx:30-48 | the placeholder found by id is replaced by the reply, a list without it is kept, and the flag is cleared |
| AIService.DetectAIMentionAndRespond | src/components/AIService.tsx:53-62 | the result is the detection; without a mention (or without an assistant user) the store is untouched and no reply is pending; otherwise the placeholder is appended to the room, generation is flagged and the reply pending is for the stripped prompt |
| NotificationService.Body | src/components/NotificationService.tsx:50 | the body has at most 50 characters: short content unchanged, long content its first 47 plus "..." |
| NotificationService.Title | src/components/NotificationService.tsx:42-46 | never empty: the system title, else the chat name, else "New message" |
| NotificationService.NoticeBodyFromContent | src/components/NotificationService.tsx:37-58 | a notice's body is a prefix of the content, or 47 characters of it and "..." |
| NotificationService.MarkSent | src/components/NotificationService.tsx:73-80 | the current user's messages without status become `sent`, all others are kept |
| NotificationService.AddStatusIndicators | src/components/NotificationService.tsx:68-85 | the chats are the same |
| NotificationService.StatusIndicatorsMarkOnlyOwn | src/components/NotificationService.tsx:68-85 | only the status of the current user's unmarked messages changes; a missing user changes nothing |
| NotificationService.StatusIndicatorsIdempotent | src/components/NotificationService.tsx:68-85 | marking twice is marking once |
| NotificationService.DrainFrames | src/components/NotificationService.tsx:103-114 | one frame per queued message, in order, private for user targets and room frames otherwise |
| NotificationService.DrainFramesSplit | src/components/NotificationService.tsx:103-114 | draining in two parts sends the first part's frames and then the second's |
| NotificationService.SendQueued | src/components/NotificationService.tsx:106-112 | one queued message goes out exactly when connected with a user, else "Not connected" |
| NotificationService.OfflineQueue.constructor | src/components/NotificationService.tsx:95 | the queue holds the given messages |
| NotificationService.OfflineQueue.OnOffline | src/components/NotificationService.tsx:120-122 | the store is marked disconnected; the queue is kept |
| NotificationService.OfflineQueue.OnOnline | src/components/NotificationService.tsx:98-102 | with a truthy current user the service starts connecting as that user: a fresh socket that is not yet open, the stored id set, an open socket closed first, and no frame sent, callbacks, invocations and retry attempts unchanged; otherwise nothing changes |
| NotificationService.OfflineQueue.Drain | src/components/NotificationService.tsx:103-114 | an empty queue or a connected service drains everything in order; otherwise one message is lost and the rest stays |
| ChatViews.MessagesOf | src/components/ChatWindow.tsx:54-60 | an absent chat reads as the empty list |
| ChatViews.FindUser | src/components/AIService.tsx:11-13 | the result is a user with the id, or none has it |
| ChatViews.FindUserIsFirst | src/components/MessageList.tsx:176 | `find` returns the first user with the id |
| ChatViews.FindRoom | src/components/ChatWindow.tsx:126 | the result is a room with the id, or none has it |
| ChatViews.ViewStore.constructor | src/components/ChatWindow.tsx:46-67 | the given users and rooms, no messages, not generating, not connected |
| ChatViews.ViewStore.SetMessages | src/components/AIService.tsx:26 | one chat's list is replaced |
| ChatViews.ViewStore.SetGenerating | src/components/AIService.tsx:27 | the generating flag is set |
| ChatWindow.SendRouting | src/components/ChatWindow.tsx:166-182 | blank content is never sent; in a room content with "@AI " goes only to the assistant with a shorter prompt, all other content goes to the store unchanged |
| ChatWindow.MarkRead | src/components/ChatWindow.tsx:94-99 | every message not from the current user becomes `read`; own messages are kept |
| ChatWindow.FocusMarksReceived | src/components/ChatWindow.tsx:86-103 | focus marks the active chat's received messages read and leaves own messages, order and other chats alone |
| ChatWindow.FocusIdempotent | src/components/ChatWindow.tsx:86-103 | focusing twice gives the same messages as focusing once |
| ChatWindow.ChatNameLookup | src/components/ChatWindow.tsx:124-131 | `room-` ids are named from rooms, others from users, "" when the lookup fails |
| ChatWindow.RaiseIff | src/components/ChatWindow.tsx:117-133 | a notification is raised for an entry exactly when it is another chat whose last message is under 5000 ms old and not the user's own |
| ChatWindow.OnStoreChange | src/components/ChatWindow.tsx:107-136 | nothing without a user and an active chat; otherwise exactly the notifications `Raise` specifies, in entry order |
| MessageList.UserNameFromFirstMatch | src/components/MessageList.tsx:175-178 | the name of the first user with the id, falling back to the id when there is none or the name is empty |
| MessageList.UserNameNonEmpty | src/components/MessageList.tsx:175-178 | a non-empty id always gets a non-empty name |
| MessageList.AIMentionIsMention | src/components/MessageList.tsx:186-190 | every message the assistant reacts to is flagged as a mention |
| MessageList.NoMarkerNoMention | src/components/MessageList.tsx:186-190 | content without '@' is never a mention |
| MessageList.OwnMessagesNotFlagged | src/components/MessageList.tsx:239-253 | the reader's own messages are never flagged; others' are flagged exactly when they mention |
| MessageList.TypingHiddenAroundPlaceholder | src/components/MessageList.tsx:260 | the typing bubble is hidden while the placeholder is the last message |
| MessageList.TypingHiddenOnlyByClearedFlag | src/components/MessageList.tsx:260 | once the reply replaces a fresh placeholder the list would show the bubble again, and only the cleared generating flag hides it |
| MockData.NewUsers | src/components/MockDataService.tsx:10-29 | exactly the mock users whose ids are absent |
| MockData.NewRooms | src/components/MockDataService.tsx:40-72 | exactly the mock rooms whose ids are absent, created by the current user |
| MockData.NewUsersUnique | src/components/MockDataService.tsx:10-29 | filtering keeps ids distinct |
| MockData.NewRoomsUnique | src/components/MockDataService.tsx:40-72 | filtering keeps ids distinct |
| MockData.MockDataAddsOnlyAbsent | src/components/MockDataService.tsx:4-74 | existing users and rooms are kept first and unchanged, exactly the absent mock entries follow, and distinct ids stay distinct |
| MockData.MockDataIdempotent | src/components/MockDataService.tsx:4-74 | a second seeding adds nothing |
| MockData.NewUsersDistributes | src/components/MockDataService.tsx:10-29 | the user filter works entry by entry, so the kept users stay in mock order |
| MockData.NewRoomsDistributes | src/components/MockDataService.tsx:40-72 | the room filter works entry by entry, so the kept rooms stay in mock order |
| MockData.MockUsersInOrder | src/components/MockDataService.tsx:10-29 | the users added are `user-1`, `user-2`, `user-3` in that order, each only when its id is absent |
| MockData.MockRoomsInOrder | src/components/MockDataService.tsx:40-72 | the rooms added are `room-1` then `room-2`, each only when absent, with `createdBy` rewritten |
| MockData.MockDataAppendsInMockOrder | src/components/MockDataService.tsx:4-74 | the new lists are the old ones followed by exactly the absent mock users and rooms, in mock order |
| RegisterForm.ValidatePasswords | src/components/auth/Register.tsx:47-66 | each error is set exactly when its check fails, and the form is valid exactly when there is no error |
| RegisterForm.HandleChangeEffect | src/components/auth/Register.tsx:28-44 | a change clears the store error, sets exactly the named field, and clears only that field's error |
| RegisterForm.SubmitEnabledIff | src/components/auth/Register.tsx:153 | the button is enabled exactly when nothing loads and all four fields are filled in |
| RegisterForm.HandleSubmit | src/components/auth/Register.tsx:69-75 | the store registers exactly when validation passed, and is otherwise unchanged |

## Left out

- JSON encoding, the `ws`/browser socket transport and `readyState` values other than OPEN and CONNECTING: frames are datatypes, a socket is a number with an OPEN flag.
- The parse-error branches of `onmessage` (`JSON.parse` throwing): only well-formed frames are modelled.
- `fetch` and every HTTP call to the Ollama server (`generateChatResponse`, `streamChatResponse`, `getAvailableModels`, `getModelDetails`, `deleteModel`, `testConnection`): their replies are parameters of the modelled operations.
- Timers, promises and async interleaving: each timer callback and socket event is a separate method, and each async action runs from its first to its last `set` in one step. So the one-second `delay` of the auth store is not modelled.
- The browser's `Notification` object and its permission, the window's `online`, `offline` and `focus` events, and `localStorage` persistence: the events are methods the environment calls.
- No shown code enqueues into the offline queue; its contents are a constructor argument.
- ISO timestamp strings: message timestamps are milliseconds.
- MockData.MockRooms: one `createdAt` argument stands for the two separate `new Date().toISOString()` calls, so both mock rooms carry the same timestamp; the two calls may differ in the source.
- Unicode: strings are sequences of characters, so an emoji's UTF-16 length is not modelled.
- Regular expressions beyond the two that are modelled: `/([\w-]+)-([\w]+)$/` and `/@AI\s+|@AI Assistant\s+/g`.
- Conversation objects are values: the aliasing of a conversation `get` returns with the stored one is not modelled.
- One socket at a time: `ChatClient.ChatService` and `ChatStore.WebSocketConnection` hold only the current socket. So the handlers of a replaced socket (a late `onopen`, `onclose` or `onmessage` of an earlier socket) cannot fire in the model.
- ChatStore.WebSocketConnection.OnOpen: requires a socket to exist, as the event comes only from a created socket.
- AuthStore.UpdateKeepsIdsWellFormed: assumes that the update has no `id` field and that the current user's record is in the table.
- MessageInput.MentionAIAtMostOnce: assumes the user list holds at most one entry with the assistant's id.
- The keyboard handling of the mention menu (`handleKeyDown`), focus management and rendering of the components.
- `MediaService.tsx`, `App.tsx`, `Login.tsx`, `Sidebar.tsx`, `ChatHeader.tsx` and the `ui/` components other than `ModelSelector.tsx` are not part of this model.
- The `isPrivate` and `contentType` fields of messages are not read by the modelled code and are left out.

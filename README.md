# Chat core of the study platform, modelled in Dafny

This project models the real-time chat of the platform's TypeScript back end and browser client:

- **Message and conversation schemas.** These come from `src/models/chat.model.ts`: required fields, defaults, trimming, and the pre-save hook that deduplicates and sorts a conversation's participants.
- **The chat service.** This is `src/services/chat.service.ts`, modelled over an in-memory store. Messages are a sequence in insertion order; conversations are a map from id to record. The service covers sending, which creates or bumps a pair's conversation, and read-marks with their per-participant unread counters. It also covers the unread summary, paged history, the conversation list, name search and delete.
- **The socket server.** This is `src/services/socket.service.ts`. The `connectedUsers` presence registry maps a user id to one session. Everything emitted goes into an append-only log of emissions, and each event handler is a rule that decides what is emitted and to whom.
- **The offline request store.** This is `WorkboxService` from `src/services/workbox.service.ts`: a keyed map of requests made while offline, with its configuration merge, age purge, retry pass, statistics, and its copy in local storage.
- **The browser client.** This is `src/services/client-chat.service.ts`. `ClientChatService` holds the connection flag and reconnect attempts, the FIFO queue of sends made while offline, and the listener registry. `ChatAPIService.markAllUnreadAsRead` is a counting loop.
- **The HTTP controller.** This is `src/controllers/chat.controller.ts`: request validation, and the mapping from the service's outcome to a status code and JSON envelope.

Modules, one per source file:

| module | source |
|---|---|
| `ChatTypes` | the records of `src/types/chat.d.ts` |
| `ChatModel` | `src/models/chat.model.ts` |
| `ChatService` | `src/services/chat.service.ts` |
| `SocketService` | `src/services/socket.service.ts` |
| `WorkboxService` | `src/services/workbox.service.ts` |
| `ClientChat` | `src/services/client-chat.service.ts` |
| `ChatController` | `src/controllers/chat.controller.ts` |

Three supporting modules hold what the source takes from JavaScript:
- `Wrappers` has `Option` and `Result`.
- `Sequences` has distinctness lemmas.
- `JsBuiltins` models `String.prototype.trim` and ASCII `toLowerCase`. It also models `includes`, the default `Array.prototype.sort` comparator (code-unit order), and `parseInt`.

Ids are strings compared by value.

A state-changing part of the source becomes a class with its fields:
- `ChatStore` holds the message store and the conversation map.
- `SocketServer` holds `connectedUsers` and the emission log.
- `OfflineStore` holds `offlineRequests`, `config` and the stored list.
- `ClientChatService` holds the connection state, queue, listeners and logs.

Each method's contract states the whole new state. The functions beside a method state what the source promises about that state.

Several inputs from outside the system become parameters:
- The clock (`Date.now()`) and generated ids (`Math.random()`, Mongo ObjectIds). The store's callers pass fresh ids.
- The network's reply to a replayed offline request. It is an `attempt` function.
- The replies to `getUnreadCount` and `markMessagesAsRead` inside `markAllUnreadAsRead`.
- The user directory that `populate` reads names from.
- Whether the page has a `window`, and whether notifications are granted.

Where the code and the repository's written description differ, the model follows the code, except for the self-send lookup (see Findings):
- `retryOfflineRequests` does not raise `retryCount` on a failed attempt. Only `updateRetryCount` does, and nothing calls it.
- The default retention window is 7 days, not 24 hours.
- `maxEntries` is stored but never enforced.
- The socket `mark_read` handler passes the sender's user id as the conversation id. It therefore fails, and the failure is swallowed, unless a conversation happens to have that id.
- The `new_message` payload's `conversationId` is the message id.
- A disconnect removes the registry entry by user id alone. A stale socket's disconnect can therefore mark a user offline who has just reconnected on a new socket (`SocketService.StaleDisconnectDropsNewSession`).

## Model

| member | source | states |
|---|---|---|
| `JsBuiltins.Trim` | src/models/chat.model.ts:29 | the result is a contiguous middle of the input with only white space outside it; it neither starts nor ends with white space; it is empty exactly when the input is all white space |
| `JsBuiltins.TrimIdempotent` | src/models/chat.model.ts:26-30 | trimming a trimmed string changes nothing |
| `JsBuiltins.ToLower` | src/services/chat.service.ts:166 | same length, each character lowered, and no upper-case ASCII letter remains |
| `JsBuiltins.IncludesIff` | src/services/chat.service.ts:166 | `includes(p)` holds exactly when `p` occurs at some index |
| `JsBuiltins.SortStrings` | src/services/chat.service.ts:21 | the default sort is a permutation of its input |
| `JsBuiltins.SortStringsSorted` | src/services/chat.service.ts:21 | the default sort's result is in ascending code-unit order |
| `JsBuiltins.SortStringsStrict` | src/models/chat.model.ts:84 | sorting a list without repeats gives a strictly ascending list |
| `JsBuiltins.StrictlySortedUnique` | src/models/chat.model.ts:84 | two strictly ascending lists with the same elements are equal |
| `JsBuiltins.DigitRun` | src/controllers/chat.controller.ts:42-43 | `parseInt` reads the longest prefix of digits of the radix and stops at the first other character |
| `JsBuiltins.ParseIntDecimal` | src/controllers/chat.controller.ts:42-43 | `parseInt` of a decimal numeral, with an optional minus sign and any non-digit tail, is that number |
| `ChatModel.MessageTypeOf` | src/models/chat.model.ts:31-35 | the enum accepts exactly 'text', 'image' and 'file', each as its own member |
| `ChatModel.CreateMessage` | src/models/chat.model.ts:13-42 | a message validates exactly when sender and receiver are present, the trimmed content is not empty, and the type is absent or in the enum; the stored message has the trimmed content, is unread, and defaults to 'text'; a missing sender is the error reported first |
| `ChatModel.StoredContentIsTrimmed` | src/models/chat.model.ts:26-30 | stored content is already trimmed and not blank |
| `ChatModel.NewConversation` | src/models/chat.model.ts:73-77 | a new conversation's unread map defaults to the empty map |
| `ChatModel.Dedup` | src/models/chat.model.ts:84 | `[...new Set(xs)]` has no repeats and the same elements |
| `ChatModel.NormaliseParticipants` | src/models/chat.model.ts:84 | the stored participant list is strictly ascending (sorted, no duplicates) and holds exactly the given ids |
| `ChatModel.PreSave` | src/models/chat.model.ts:83-86 | the hook changes only the participants, which become sorted, deduplicated and the same set |
| `ChatModel.NormaliseOrderIndependent` | src/models/chat.model.ts:82-86 | two lists with the same ids, in any order and with any repeats, are stored alike |
| `ChatModel.NormaliseKeepsCanonical` | src/models/chat.model.ts:84 | a list that is already strictly ascending is stored unchanged |
| `ChatModel.NormaliseIdempotent` | src/models/chat.model.ts:84 | normalising twice is normalising once |
| `ChatModel.NormalisePairSymmetric` | src/models/chat.model.ts:84 | [A, B] and [B, A] are stored alike |
| `ChatService.CanonicalPairSymmetric` | src/services/chat.service.ts:21 | a send A→B and a send B→A compute the same lookup key, which is the pair in one order or the other |
| `ChatService.PairKeyShape` | src/services/chat.service.ts:21-24 | the deduplicated key lists each of the two users once: one entry for a self-send, else two |
| `ChatService.PairKeyFindsThePair` | src/services/chat.service.ts:21-24 | on a stored (canonical) conversation, the `$all`/`$size` lookup with the deduplicated key matches exactly when the participants are the two users |
| `ChatService.SelfSendFindsOtherConversation` | src/services/chat.service.ts:21-24 | the key as written for a self-send by alice matches the stored conversation [alice, bob] |
| `ChatService.KeysAgreeForDistinctUsers` | src/services/chat.service.ts:21-24 | for two different users, the key as written and the deduplicated key match the same conversations |
| `ChatService.LookupIsUnique` | src/services/chat.service.ts:22-24 | with the corrected (deduplicated) key of the Findings row, in a store with one conversation per participant list, the lookup matches at most one conversation |
| `ChatService.LookupSingleton` | src/services/chat.service.ts:22-24 | with the corrected (deduplicated) key, a match, when there is one, is the only match |
| `ChatService.StartConversation` | src/services/chat.service.ts:26-32 | the first message creates a conversation of the pair whose last message is that message, with unread map exactly {receiver: 1} |
| `ChatService.BumpConversation` | src/services/chat.service.ts:33-38 | a later message becomes the last message; the receiver's count (absent counts as 0) goes up by one, all other counts and the participants stay |
| `ChatService.ResetUnread` | src/services/chat.service.ts:121-123 | a read-mark sets the reader's count to 0 and leaves every other count and the last message alone |
| `ChatService.UnreadCountsSends` | src/services/chat.service.ts:33-38 | K sends to the same receiver raise the receiver's count by exactly K and no one else's |
| `ChatService.ReadAfterSends` | src/services/chat.service.ts:107-123 | after those sends and the receiver's read-mark, the receiver's count is 0 and the sender's is as before |
| `ChatService.Validated` | src/services/chat.service.ts:11-18 | the service's message carries the sender, the receiver, the trimmed content, the messageType, else 'text' type, is unread, and is rejected exactly when schema validation fails |
| `ChatService.MarkReadIn` | src/services/chat.service.ts:107-119 | only read flags change, and a message ends up read exactly when it was read already or is to the reader from a participant |
| `ChatService.RemoveMessage` | src/services/chat.service.ts:184 | removing by id keeps exactly the messages with another id |
| `ChatService.RemovesExactlyOne` | src/services/chat.service.ts:174-186 | with unique ids, deleting a stored message removes that one and keeps the rest in order |
| `ChatService.RemoveAbsent` | src/services/chat.service.ts:180-182 | deleting an id no message has changes nothing |
| `ChatService.Thread` | src/services/chat.service.ts:58-63 | the thread holds exactly the stored messages sent between the two users, in either direction |
| `ChatService.ThreadSymmetric` | src/services/chat.service.ts:58-63 | the thread is the same whichever of the two users asks |
| `ChatService.NewestFirst` | src/services/chat.service.ts:64 | sorting newest first is a permutation |
| `ChatService.NewestFirstDescending` | src/services/chat.service.ts:64 | sorting newest first gives non-increasing timestamps, an absent timestamp last |
| `ChatService.Page` | src/services/chat.service.ts:65-66 | skip then limit: the page is the slice at the offset, of length the absolute value of limit (0: the rest), empty past the end |
| `ChatService.PagesTile` | src/services/chat.service.ts:65-66 | consecutive pages of size n make up the page of size 2n |
| `ChatService.PageDescending` | src/services/chat.service.ts:64-66 | a page keeps the list's members and order, so a page of a descending list is descending |
| `ChatService.SortArrangesNewestFirst` | src/services/chat.service.ts:64 | sorting the thread by `createdAt` descending gives a newest-first arrangement: the same messages with non-increasing timestamps |
| `ChatService.PageOfArrangement` | src/services/chat.service.ts:64-66 | a page of any newest-first arrangement of the thread has the length of the thread's page at that limit and offset, holds only thread messages, and is newest first |
| `ChatService.History` | src/services/chat.service.ts:55-71 | rejected exactly for a negative offset; otherwise the result is the page at that limit and offset of some newest-first arrangement of the pair's thread, whichever order ties among equal `createdAt` take; so its length is that of the thread's page, its members are messages between the two users, newest first, at most as many as the absolute value of a non-zero limit |
| `ChatService.FirstPageIsNewest` | src/services/chat.service.ts:55-66 | the first page is never rejected, and a message of the thread newer than one on the page is on the page too: the page holds the newest messages |
| `ChatService.KeepMatches` | src/services/chat.service.ts:163-168 | the filter keeps exactly the conversations with another participant whose lowercased name contains the lowercased term |
| `ChatService.StartKeepsOnePerPair` | src/services/chat.service.ts:26-32 | creating the conversation of a pair that has none keeps the store canonical with one conversation per participant list |
| `ChatService.BumpKeepsOnePerPair` | src/services/chat.service.ts:33-40 | recording a message on a stored conversation keeps the store canonical with one conversation per participant list |
| `ChatService.ChatStore.SendMessage` | src/services/chat.service.ts:8-52 | an invalid message changes nothing; a valid one is appended and either starts the pair's conversation when the lookup finds none, or bumps the one conversation it finds; the lookup uses the corrected key of the Findings row; the store invariant is kept |
| `ChatService.ChatStore.RecordMessage` | src/services/chat.service.ts:18-40 | after validation: the message is appended; the pair's conversation is started when the lookup (corrected key) finds none, else the one it finds is bumped; the store invariant is kept |
| `ChatService.ChatStore.MarkMessagesAsRead` | src/services/chat.service.ts:92-128 | fails with not-found or not-a-participant and changes nothing; otherwise marks read as `MarkReadIn` and resets only the reader's count; it succeeds exactly when the conversation exists and has the user |
| `ChatService.ChatStore.GetUnreadCount` | src/services/chat.service.ts:131-146 | the result maps exactly the user's conversations with a positive count for the user to that count |
| `ChatService.ChatStore.ConversationsOf` | src/services/chat.service.ts:75-77 | each stored conversation that includes the user, once |
| `ChatService.ChatStore.GetUserConversations` | src/services/chat.service.ts:74-89 | each conversation of the user once, ordered by last message time, newest first |
| `ChatService.ChatStore.SearchConversations` | src/services/chat.service.ts:149-171 | exactly the user's conversations with another participant whose name matches, each once |
| `ChatService.ChatStore.DeleteMessage` | src/services/chat.service.ts:174-186 | deletes and reports true exactly when a message with that id was sent by the user; otherwise changes nothing; conversations are untouched |
| `SocketService.RequestOf` | src/services/socket.service.ts:84-88 | the service gets the receiver and content as sent, with messageType, else 'text' |
| `SocketService.SendReplies` | src/services/socket.service.ts:90-128 | on success: message_sent to the sender; then new_message and notification to the receiver's socket exactly when the receiver is connected, with their payloads (new_message's conversationId = message id; the notification carries the content, no conversation id and no user id); on failure: only message_error to the sender |
| `SocketService.TypingReplies` | src/services/socket.service.ts:133-147 | one user_typing to the receiver's socket exactly when the type is typing, a receiver is given and online; never a presence event |
| `SocketService.ReadReplies` | src/services/socket.service.ts:155-166 | one messages_read to the original sender's socket exactly when that sender is connected, carrying the reader and the conversation id |
| `SocketService.StatusBroadcast` | src/services/socket.service.ts:199-208 | one user_status broadcast to everyone with the given online flag |
| `SocketService.SocketServer.OnConnection` | src/services/socket.service.ts:60-75 | the user's entry is the new session, replacing any earlier one; exactly one online broadcast is added |
| `SocketService.SocketServer.OnDisconnect` | src/services/socket.service.ts:186-194 | the user's entry goes whatever socket it holds, the other entries stay; exactly one offline broadcast is added |
| `SocketService.SocketServer.OnSendMessage` | src/services/socket.service.ts:78-130 | a send failing the gate stores and emits nothing; otherwise the store's outcome decides the replies as `SendReplies` states; presence broadcasts are unchanged |
| `SocketService.SocketServer.OnTyping` | src/services/socket.service.ts:133-147 | appends exactly the typing replies and stores nothing |
| `SocketService.SocketServer.OnMarkRead` | src/services/socket.service.ts:150-171 | uses the sender id as the conversation id; when that is not a conversation of the reader nothing changes and nothing is emitted; otherwise marks read and sends the receipt |
| `SocketService.SocketServer.IsUserOnline` | src/services/socket.service.ts:224-226 | online exactly when some registered session belongs to the user |
| `SocketService.SocketServer.SendToUser` | src/services/socket.service.ts:229-234 | one emission to the user's socket, none for an offline user |
| `SocketService.SocketServer.BroadcastToAll` | src/services/socket.service.ts:237-239 | one emission to everyone |
| `SocketService.SocketServer.GetConnectedUsers` | src/services/socket.service.ts:219-221 | every registered session once |
| `SocketService.StaleDisconnectDropsNewSession` | src/services/socket.service.ts:186-190 | connect on one socket, reconnect on another, then the first socket's disconnect: the user is reported offline after two online broadcasts and one offline broadcast |
| `WorkboxService.MergeNeutralAndIdempotent` | src/services/workbox.service.ts:174-176 | an empty update changes nothing; applying an update twice equals applying it once |
| `WorkboxService.MergeTwice` | src/services/workbox.service.ts:174-176 | two updates in a row equal one combined update with the later fields winning |
| `WorkboxService.FromList` | src/services/workbox.service.ts:157-160 | loading files each record under its own id, and holds exactly the ids of the list |
| `WorkboxService.FromListFindsEach` | src/services/workbox.service.ts:157-160 | with distinct ids, each listed record is found under its id |
| `WorkboxService.LoadAfterPersist` | src/services/workbox.service.ts:139-166 | loading the listing that persisting wrote gives back the same id-to-record map |
| `WorkboxService.Timestamps` | src/services/workbox.service.ts:186 | the timestamps of the records, in order |
| `WorkboxService.Min` | src/services/workbox.service.ts:191 | the least timestamp, which is one of them |
| `WorkboxService.Max` | src/services/workbox.service.ts:192 | the greatest timestamp, which is one of them |
| `WorkboxService.StatsOf` | src/services/workbox.service.ts:185-193 | total = pending = count; oldest and newest are the least and greatest timestamps, or null when there are no records |
| `WorkboxService.NewStore` | src/services/workbox.service.ts:7-18 | a store made with only a retention window has cache name 'ecomstudy-offline-cache', 100 entries, network-first for the API and cache-first for assets, the given window or 604800 s by default, and no records |
| `WorkboxService.OfflineStore.constructor` | src/services/workbox.service.ts:7-18 | the configuration is the defaults overridden by the supplied fields, and the store starts empty |
| `WorkboxService.OfflineStore.Snapshot` | src/services/workbox.service.ts:36-38 | the listing holds every record once |
| `WorkboxService.OfflineStore.Persist` | src/services/workbox.service.ts:139-148 | with a window, storage holds the current listing; without one it is untouched |
| `WorkboxService.OfflineStore.StoreOfflineRequest` | src/services/workbox.service.ts:21-33 | the new record is filed under the returned id with retry count 0 and timestamp now, the others unchanged, then persisted |
| `WorkboxService.OfflineStore.GetOfflineRequest` | src/services/workbox.service.ts:41-43 | the record filed under the id, or none |
| `WorkboxService.OfflineStore.RemoveOfflineRequest` | src/services/workbox.service.ts:46-52 | true exactly when the id was filed; afterwards it is absent and the rest unchanged; persisted only on removal |
| `WorkboxService.OfflineStore.UpdateRetryCount` | src/services/workbox.service.ts:55-63 | true and the record's retry count up by exactly one when filed; otherwise false and nothing changes |
| `WorkboxService.OfflineStore.ClearOldRequests` | src/services/workbox.service.ts:66-83 | removes exactly the records older than maxAgeSeconds·1000 ms at now, keeps the rest as they were, returns the number removed |
| `WorkboxService.OfflineStore.RetryOfflineRequests` | src/services/workbox.service.ts:86-107 | each record present at the start is tried once; successes are removed, failures stay unchanged; success + failed is the initial count |
| `WorkboxService.OfflineStore.LoadOfflineRequests` | src/services/workbox.service.ts:151-166 | with a window and a stored list, the records become that list keyed by id; otherwise unchanged |
| `WorkboxService.OfflineStore.UpdateConfig` | src/services/workbox.service.ts:174-176 | the configuration merges the update; the records are untouched |
| `WorkboxService.OfflineStore.GetStats` | src/services/workbox.service.ts:179-194 | the statistics of the current records: count, least and greatest timestamps, null when empty |
| `ClientChat.NotificationBody` | src/services/client-chat.service.ts:237-248 | the notification shows the message text, or 'New message received' when it is missing or empty |
| `ClientChat.ChatMessageOf` | src/services/client-chat.service.ts:93-99 | a send is a type 'message' socket message with receiver and content only; the message type is dropped |
| `ClientChat.Sends` | src/services/client-chat.service.ts:155-162 | one send_message per queued message, in queue order |
| `ClientChat.Calls` | src/services/client-chat.service.ts:223-234 | one call per listener, in registration order |
| `ClientChat.IndexOfListener` | src/services/client-chat.service.ts:214 | the first position of the listener, or -1 exactly when it is absent |
| `ClientChat.RemoveFirst` | src/services/client-chat.service.ts:212-218 | removes only the first registration of the listener, or nothing when it is absent |
| `ClientChat.OffUndoesOn` | src/services/client-chat.service.ts:200-220 | registering a new listener and removing it gives back the list as it was |
| `ClientChat.ClientChatService.constructor` | src/services/client-chat.service.ts:4-15 | a new client has a socket, is not connected, with no attempts, no queue and no listeners |
| `ClientChat.ClientChatService.Emit` | src/services/client-chat.service.ts:223-234 | every listener of the event is called once, in registration order; no other state changes |
| `ClientChat.ClientChatService.ProcessMessageQueue` | src/services/client-chat.service.ts:155-162 | the queue is sent oldest first and ends empty |
| `ClientChat.ClientChatService.OnConnect` | src/services/client-chat.service.ts:41-47 | connected, attempts reset to 0, 'connected' listeners called, then the whole queue sent in FIFO order and emptied; every other field unchanged |
| `ClientChat.ClientChatService.OnDisconnect` | src/services/client-chat.service.ts:49-53 | not connected, the queue kept, 'disconnected' listeners called with the reason |
| `ClientChat.ClientChatService.OnConnectError` | src/services/client-chat.service.ts:55-59 | one more reconnect attempt; 'connection_error' listeners called; every other field unchanged |
| `ClientChat.ClientChatService.OnServerEvent` | src/services/client-chat.service.ts:61-83 | a forwarded server event reaches the client's listeners of the same name; every other field unchanged |
| `ClientChat.ClientChatService.OnNotification` | src/services/client-chat.service.ts:85-88 | listeners are called, then a browser notification is shown exactly when permitted; every other field unchanged |
| `ClientChat.ClientChatService.GetOfflineMessages` | src/services/client-chat.service.ts:180-188 | the stored offline messages, or none |
| `ClientChat.ClientChatService.SendMessage` | src/services/client-chat.service.ts:92-108 | while connected: one send_message out and the queue unchanged; otherwise nothing out, exactly one message appended to the queue and one offline record stored; every other field unchanged |
| `ClientChat.ClientChatService.SendTypingIndicator` | src/services/client-chat.service.ts:111-123 | sent only while connected, otherwise dropped, never queued; every other field unchanged |
| `ClientChat.ClientChatService.MarkMessagesAsRead` | src/services/client-chat.service.ts:126-138 | sent only while connected, otherwise dropped, never queued; every other field unchanged |
| `ClientChat.ClientChatService.JoinConversation` | src/services/client-chat.service.ts:141-145 | sent only while connected, otherwise dropped; every other field unchanged |
| `ClientChat.ClientChatService.LeaveConversation` | src/services/client-chat.service.ts:148-152 | sent only while connected, otherwise dropped; every other field unchanged |
| `ClientChat.ClientChatService.ClearOfflineMessages` | src/services/client-chat.service.ts:191-197 | the stored offline messages are gone; every other field unchanged |
| `ClientChat.ClientChatService.On` | src/services/client-chat.service.ts:200-205 | the listener is appended to the event's list; every other field unchanged |
| `ClientChat.ClientChatService.Off` | src/services/client-chat.service.ts:208-220 | without a callback all listeners of the event go; with one, only its first registration; every other field unchanged |
| `ClientChat.ClientChatService.Disconnect` | src/services/client-chat.service.ts:257-263 | the socket is dropped and the client is not connected; the queue is kept; a connected socket reports 'io client disconnect' to the listeners; every other field unchanged |
| `ClientChat.ClientChatService.Reconnect` | src/services/client-chat.service.ts:266-271 | disconnects and sets one reconnect timer; every other field unchanged |
| `ClientChat.ClientChatService.ReconnectTimerFires` | src/services/client-chat.service.ts:268-270 | the timer creates a new socket, not yet connected; every other field unchanged |
| `ClientChat.ClientChatService.GetConnectionStatus` | src/services/client-chat.service.ts:274-284 | reports the connected flag, the attempts and the queue length |
| `ClientChat.OfflineSendsFlushInOrder` | src/services/client-chat.service.ts:92-162 | two sends while offline then a connect: both go out in the order made, and both are recorded offline |
| `ClientChat.ErrorText` | src/services/client-chat.service.ts:315 | the error message, or 'Error marking as read' when it is empty |
| `ClientChat.Pending` | src/services/client-chat.service.ts:300 | exactly the conversations with a positive count |
| `ClientChat.ChatApiService.constructor` | src/services/client-chat.service.ts:292-295 | keeps the base URL and token |
| `ClientChat.ChatApiService.MarkAllUnreadAsRead` | src/services/client-chat.service.ts:297-318 | visits only conversations with a positive count; updated is the number of confirmed marks, at most that many; any thrown error gives success false and updated 0 |
| `ChatController.PageLimit` | src/controllers/chat.controller.ts:42 | the limit is never 0: it is the parsed value exactly when that is a non-zero number, and 50 exactly when the parameter is missing, not a number, or 0 |
| `ChatController.PageOffset` | src/controllers/chat.controller.ts:43 | the offset is the parsed value when the parameter is a number, and 0 when it is missing or not a number |
| `ChatController.PageLimitOfDecimal` | src/controllers/chat.controller.ts:42 | a decimal limit is taken as written, sign included, except 0, which means 50 |
| `ChatController.PageOffsetOfDecimal` | src/controllers/chat.controller.ts:43 | a decimal offset is taken as written, sign included |
| `ChatController.SendMessage` | src/controllers/chat.controller.ts:9-35 | 400 without receiver or content, whatever the service would do; 201 with the service's message; 500 'Failed to send message' on failure |
| `ChatController.GetConversationMessages` | src/controllers/chat.controller.ts:38-66 | 400 without the other user; else the service is asked with the parsed limit and offset: 200 with the messages, 500 on failure |
| `ChatController.HistoryThroughController` | src/controllers/chat.controller.ts:42-52 | over the store's history, no paging parameters give 200 with the newest min(50, thread length) messages of the pair, newest first; a negative offset gives 500 |
| `ChatController.GetUserConversations` | src/controllers/chat.controller.ts:69-87 | 200 with the conversations, or 500 |
| `ChatController.MarkMessagesAsRead` | src/controllers/chat.controller.ts:90-118 | 400 without an id; any service failure is 500 'Failed to mark messages as read'; otherwise 200 |
| `ChatController.MarkReadFailuresLookAlike` | src/controllers/chat.controller.ts:110-117 | a missing conversation and a non-participant give the same response |
| `ChatController.GetUnreadCount` | src/controllers/chat.controller.ts:121-139 | 200 with the counts, or 500 |
| `ChatController.SearchConversations` | src/controllers/chat.controller.ts:142-168 | 400 exactly when q is not one non-empty string; else 200 with the results, or 500 |
| `ChatController.DeleteMessage` | src/controllers/chat.controller.ts:171-203 | 400 without an id, 404 when nothing was deleted, 200 when it was, 500 on failure |

## Left out

- Mongoose itself is not modelled: schemas as middleware, `save`, `populate`, and ObjectId identity. The `formatMessageResponse` and `formatConversationResponse` field copies are also left out. A store is a sequence and a map, and a message's timestamps keep only `createdAt`.
- Concurrency is not modelled. The unread-count read-modify-write, interleaved socket handlers and listener re-entrancy are all treated as sequential.
- The socket.io transport is reduced to a log of emissions. Rooms (`join_conversation`, `leave_conversation`, `sendToConversation`), CORS, `getIO` and the JWT handshake middleware (foreign crypto and a database lookup) are left out. A handler's user is the session it was registered with.
- `fetch`, `localStorage`, JSON text, `Notification`, `setTimeout`, `Date.now()` and `Math.random()` are not modelled as such. They are parameters or fields (see above). The serialised text itself and failures of storage or parsing are not modelled, and neither is the `retryRequest` body.
- `public/sw.js` and the `workboxConfig` constant are static service-worker routing and caching data, and are not part of this model.
- ChatAPIService's other HTTP methods are plain `fetch` wrappers and are not part of this model. Only `markAllUnreadAsRead` is modelled, over their replies.
- `getConfig` is not a separate member: it is the `config` field. `isSocketConnected` is the `connected` field of `GetConnectionStatus`. `getOfflineRequests` is `Snapshot`.
- JsBuiltins.ToLower: lowercases ASCII letters only. JavaScript's full Unicode case mapping is not modelled.
- JsBuiltins.SortStrings: orders by character, which equals JavaScript's UTF-16 code-unit order for characters of the Basic Multilingual Plane only.
- ChatService.History: the result is the page of some newest-first arrangement of the thread, not of one fixed arrangement, because the database's order among messages with equal `createdAt` is unspecified. `Page` states the exact slice of a given list.
- ChatService.History: a message whose sender or receiver has no user record is populated as null, and `formatMessageResponse` then throws (src/services/chat.service.ts:67-70, 193, 198). The model returns the page; the user directory is not consulted.
- ChatService.ChatStore.SendMessage: the lookup uses the corrected key of the Findings row. As written, the first self-send by A, with no [A, X] stored, creates the conversation [A, A] (see `ChatModel.Dedup` below); a later self-send matches that [A, A] or any stored [A, X], whichever the database returns first. `SelfSendFindsOtherConversation` states the [A, X] match, and for two different users the keys agree (`KeysAgreeForDistinctUsers`).
- ChatService.ChatStore.SendMessage: when the sender or receiver has no user record, the source saves the message and the conversation and then throws while formatting the populated message (src/services/chat.service.ts:43-47, 193, 198), so the caller sees a failure after the data was stored. The model reports success in that case.
- ChatService.ChatStore.GetUserConversations: order among conversations with equal `lastMessageAt` is not stated, for the same reason.
- ChatService.ChatStore.GetUserConversations: a participant without a user record is dropped from the populated participant array, which formats without error. A last message whose sender or receiver has no user record is populated as null, and formatting it then throws (src/services/chat.service.ts:88, 219, 193, 198), so the request fails. The model lists the conversations.
- ChatService.ChatStore.SearchConversations: the same throw happens when a kept conversation's last message has a sender or receiver without a user record (src/services/chat.service.ts:170, 219, 193, 198), and the controller answers 500 'Failed to search conversations'. The model returns the list. A participant without a user record is dropped from the populated array; `NameMatches` already skips such a participant (`p in names`).
- ChatModel.Dedup: removes repeats by value. The pre-save hook's `new Set` (src/models/chat.model.ts:84) compares the participant ObjectIds, which are separate instances even for the same id (src/models/chat.model.ts:61-65), so it keeps repeats: a self-send's conversation is stored as [A, A], not [A]. Only self-sends are affected.
- JsBuiltins.ParseInt: the value is an exact integer of any size. JavaScript returns a double, which rounds numerals above 2^53; limit and offset are then rounded numbers.
- SocketService.SendAccepted: a socket payload without a `data` object cannot be represented. In the source, reading `data.data.receiver` then throws inside the handler's try, and 'message_error' is sent to the sender (src/services/socket.service.ts:80, 123-128).
- WorkboxService.OfflineStore.RetryOfflineRequests: records are tried in the order of a listing, not the Map's insertion order. The outcome does not depend on that order, because a reply depends only on the record.
- WorkboxService.OfflineStore.Snapshot: gives every record once but not the Map's insertion order. The same holds for the order of entries in `Persist`'s stored list, `getUnreadCount`'s keys and `SocketService.SocketServer.GetConnectedUsers`, which lists every session once but not in the registry's insertion order.
- WorkboxService.Merge: a supplied field explicitly set to `undefined` overrides the default in JavaScript. Here a field is either supplied with a value or absent.
- ClientChat.ChatApiService.MarkAllUnreadAsRead: when several marks would throw, the model does not pin which message is reported, because it depends on `Object.keys` order. It states that some error is reported with `updated` 0.
- SocketService.SocketServer.OnSendMessage: states the message store and the emissions. It does not restate the conversation update, which `ChatService.ChatStore.SendMessage` states.
- ChatController.GetConversationMessages: query values that are arrays or objects (a repeated `limit`, say) are not modelled for limit and offset. `parseInt` would read their string form.

## Findings

| source | as written | input that shows it | evidently intended | confidence | as-written member | corrected member |
|---|---|---|---|---|---|---|
| src/services/chat.service.ts:21-24 | the lookup key is `[senderId, receiver].sort()` with `$size: 2`; `$all` only asks that each key element occur, so a self-send's key `[A, A]` matches any two-person conversation containing A | alice sends to alice while the conversation ["alice", "bob"] is stored: the message bumps that conversation and raises alice's unread count in it | a self-send finds or creates the sender's own conversation and never a conversation with someone else; rejecting self-sends altogether is an equally plausible intent | medium, not executed | `ChatService.SelfSendFindsOtherConversation` | `ChatService.PairKeyFindsThePair` |

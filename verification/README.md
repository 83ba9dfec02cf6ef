# Socket chat and online-counter backends, modelled in Dafny

This project models the in-memory state behind three NestJS Socket.IO gateways:

- the **multi-room chat**, made of `MultiRoomChatService` and `MultiRoomChatGateway`:
  - a registry from socket id to `{socketId, userName, currentRoom}`;
  - one capped message history for each of the rooms `general`, `tech` and `random`;
  - handlers for connect, disconnect, `join_room`, `switch_room` and `send_message`;
- the **single-room chat**, made of `ChatService` and `ChatGateway`: the same idea with one global room, where every event goes to every connected client;
- the **online counter**, made of `CounterService` and `CounterGateway`: a count that stops at zero, with one broadcast per connection or disconnection.

Each service is an immutable value. Each service method is a pure function that returns the new value together with the method's own result. Each gateway handler is a pure function:

    (state, socket, payload, clock) -> Reaction(state', effects)

The `effects` are the handler's Socket.IO calls, as an ordered list of `JoinGroup(g)`, `LeaveGroup(g)` and `Emit(target, event)`. The target is `ToClient` for `client.emit`, `ToGroup(g)` for `server.to(g).emit`, or `ToAll` for `server.emit`.

Module `Transport` models the part of Socket.IO the gateways rely on:

- the set of connected sockets;
- named groups;
- the fact that Socket.IO takes a closing socket out of the connected set and out of every group before the disconnect handler runs.

`Transport.Replay` performs the effects in order and resolves each emission to the sockets it reaches at that moment. Each `*Session` module, and `CounterGateway`, combines a handler with the transport into a `Step` of a `World`. They prove four things about it:

- who receives which event, and in what order;
- that every rejection is a private `'error'` that changes nothing;
- that a state invariant holds across steps. For the multi-room chat, the invariant is "the groups mirror the registry". For the counter, it is "the count equals the number of connected sockets".
- that `server.to(room)` reaches exactly the sockets recorded in that room.

Supporting modules:

- `Text` is JavaScript's `String.prototype.trim`. Whitespace is the WhiteSpace and LineTerminator sets of sections 12.2 and 12.3 of ECMA-262.
- `OrderedMap` is a JavaScript `Map` with insertion order.
- `History` is the `push` / `shift` discipline that bounds a history, plus `slice(-limit)`.
- `Wrappers` provides `Option`, for `undefined` and `null` results and for missing payload fields.

One quirk of the source is kept on purpose. When a user leaves a room by joining or switching to another room, the old room's member list is read from the registry before the registry moves the user. That broadcast therefore still names the departing user:

- on the join path, `broadcastRoomUsersUpdate(previousRoom)` runs before `addUserToRoom`;
- on the switch path, it runs before `switchUserRoom`.

`RoomSession.LeftTail` states this: the list names exactly the users recorded in the old room before the move, the leaver among them.

The handlers check their inputs in this order, and the model follows it:

- `handleSwitchRoom` checks the room name (multi-room-chat.gateway.ts:149) before it checks whether the client has joined (multi-room-chat.gateway.ts:157).
- `handleSendMessage` checks for an empty body first, then the room name, then membership, then that the client is in that room (multi-room-chat.gateway.ts:205-231).
- The old room's member list after a move still includes the leaver (multi-room-chat.gateway.ts:104-113).

## Model

| member | source | states |
|---|---|---|
| `RoomTypes.ParseRoom` | be/src/exercises/multi-room-chat/multi-room-chat.types.ts:12-13 | A room payload is accepted exactly when it is one of `AVAILABLE_ROOMS`, and the accepted `RoomName` carries that same name. |
| `RoomTypes.AvailableRoomsExact` | be/src/exercises/multi-room-chat/multi-room-chat.types.ts:12-13 | The room set holds three pairwise distinct names, and `RoomName` ranges over exactly them, one-to-one. |
| `RoomTypes.ParseName` | be/src/exercises/multi-room-chat/multi-room-chat.types.ts:12-13 | Reading back a room's own wire name yields that room. |
| `RoomTypes.WireInjective` | be/src/exercises/multi-room-chat/multi-room-chat.types.ts:1-10 | The eight `MultiRoomChatEvents` names are pairwise distinct. |
| `RoomRegistry.Messages` | be/src/exercises/multi-room-chat/multi-room-chat.service.ts:139 | In a valid registry every room has a stored history, so the empty-array fallback never fires. That history holds at most 100 messages, all of that room. A room with no entry reads as empty. |
| `RoomRegistry.Init` | be/src/exercises/multi-room-chat/multi-room-chat.service.ts:16-26 | A fresh registry is valid, knows no socket, and has an empty history for each of the three rooms. |
| `RoomRegistry.GetUser` | be/src/exercises/multi-room-chat/multi-room-chat.service.ts:65-67 | A found record is the entry stored under that socket id, and in a valid registry it names that socket. |
| `RoomRegistry.AddUserToRoom` | be/src/exercises/multi-room-chat/multi-room-chat.service.ts:35-47 | The socket reads back as `{socketId, userName, roomName}`, overwriting any earlier record. A known socket keeps its place in the table's key order, and a new one goes last, as with `Map.set`. Every other socket and every history is unchanged, and validity is kept. |
| `RoomRegistry.RemoveUser` | be/src/exercises/multi-room-chat/multi-room-chat.service.ts:54-60 | It returns exactly what `getUser` found, then the socket reads as absent. In a valid registry exactly that socket's entry is cut from the table and the other entries keep their order, as with `Map.delete`. Nothing else changes, and nothing at all changes for an unknown socket. |
| `RoomRegistry.RemoveUserTwice` | be/src/exercises/multi-room-chat/multi-room-chat.service.ts:54-60 | A second removal of the same socket returns absent and leaves the registry as it is. |
| `RoomRegistry.FilterRoom` | be/src/exercises/multi-room-chat/multi-room-chat.service.ts:75-77 | The filter keeps exactly the stored records whose `currentRoom` is the room. It keeps them in insertion order, as a sublist of the stored values. In a valid table no socket is listed twice. |
| `RoomRegistry.GetUsersInRoom` | be/src/exercises/multi-room-chat/multi-room-chat.service.ts:74-78 | The list holds exactly the stored records whose `currentRoom` is the room, in insertion order. In a valid registry no socket id appears twice, so each member is listed once. |
| `RoomRegistry.StoredIffGet` | be/src/exercises/multi-room-chat/multi-room-chat.service.ts:65-78 | In a valid registry, a record is among `users.values()` exactly when `getUser` of its own socket id returns it. |
| `RoomRegistry.ListedIffInRoom` | be/src/exercises/multi-room-chat/multi-room-chat.service.ts:74-78 | A user is listed for a room exactly when `getUser` finds it with that `currentRoom`, so each registered user is listed in exactly one room. |
| `RoomRegistry.SwitchUserRoom` | be/src/exercises/multi-room-chat/multi-room-chat.service.ts:86-94 | For an unknown socket it returns null and changes nothing. Otherwise only that user's `currentRoom` changes: the name and the key order are kept, and other users and the histories are untouched. |
| `RoomRegistry.AddMessageToRoom` | be/src/exercises/multi-room-chat/multi-room-chat.service.ts:103-131 | It returns null, changing nothing, exactly when the sender is unknown or is in another room. Otherwise the message carries the room, the stored name and the trimmed body, and it is pushed last onto that room's history with FIFO eviction. Users and other rooms are unchanged. |
| `RoomRegistry.PushKeepsHistoryValid` | be/src/exercises/multi-room-chat/multi-room-chat.service.ts:121-129 | A push keeps a room's history within 100 entries and holding only that room's messages. |
| `RoomRegistry.GetRoomMessages` | be/src/exercises/multi-room-chat/multi-room-chat.service.ts:138-144 | With no limit, or a limit of 0, it returns the whole history. With a positive limit it returns the last `min(limit, length)` messages in order. With a negative limit it drops the first `-limit` messages (`slice` with a positive start). |
| `RoomGateway.Names` | fe/src/exercises/multi-room-chat/multi-room-chat.gateway.ts:265 | The member list has one name per listed user, in the same order. |
| `RoomGateway.BroadcastRoomUsersUpdate` | fe/src/exercises/multi-room-chat/multi-room-chat.gateway.ts:261-267 | The update is an emission to the room's own group, carrying that room's member list. |
| `RoomGateway.NamesCoverRoom` | fe/src/exercises/multi-room-chat/multi-room-chat.gateway.ts:261-267 | Every user recorded in the room at the moment of the call is named in the list. |
| `RoomGateway.NamesFromRoom` | fe/src/exercises/multi-room-chat/multi-room-chat.gateway.ts:261-267 | Every name in the list belongs to a user recorded in the room at the moment of the call. |
| `RoomGateway.HandleDisconnect` | fe/src/exercises/multi-room-chat/multi-room-chat.gateway.ts:55-70 | The socket is forgotten and nothing else changes. A joined socket yields `user_left_room` to its last room, then that room's member list read after the removal. A socket that never joined yields nothing. |
| `RoomGateway.HandleJoinRoom` | fe/src/exercises/multi-room-chat/multi-room-chat.gateway.ts:78-135 | A blank name, and then an unknown room, is a private error that changes nothing. Otherwise the socket is recorded in the new room under the trimmed name, and nobody else changes. When the socket was in another room, the effects are the old room's leave side (group leave, `user_left_room`, member list read before the move), followed by the new room's enter side (group join, history to the requester, `user_joined_room`, member list). |
| `RoomGateway.HandleSwitchRoom` | fe/src/exercises/multi-room-chat/multi-room-chat.gateway.ts:142-193 | An unknown room is an error, checked before the not-joined error. Switching to one's current room does nothing. Otherwise only `currentRoom` changes, the name is kept, and the effects are the leave side followed by the enter side. |
| `RoomGateway.HandleSendMessage` | fe/src/exercises/multi-room-chat/multi-room-chat.gateway.ts:201-255 | The checks run in order: empty body, unknown room, not joined, other room. Each failure is a private error that changes nothing. On success, one `new_message` with the stored fields goes to the room's group, and the message is pushed onto that room's history only. |
| `Transport.Replay` | fe/src/exercises/multi-room-chat/multi-room-chat.gateway.ts:170-192 | Performing a handler's effects never changes the connected set or any other socket's groups. It yields one delivery per emission, in emission order. |
| `Transport.ReplayAppend` | fe/src/exercises/multi-room-chat/multi-room-chat.gateway.ts:104-134 | Performing the leave side and then the enter side is performing the leave side, then the enter side on the hub it leaves. The deliveries come in that order. |
| `RoomSession.GroupIsRoom` | fe/src/exercises/multi-room-chat/multi-room-chat.gateway.ts:125-127 | Under the invariant, `server.to(room)` reaches exactly the sockets recorded in that room. |
| `RoomSession.LeaveReplay` | fe/src/exercises/multi-room-chat/multi-room-chat.gateway.ts:104-113 | The old room's leave side, performed: the mover leaves the group first. `user_left_room` and the member list reach exactly the room's other sockets. The list names exactly the users recorded in the room before the move, so it still names the mover. |
| `RoomSession.MoveReplay` | fe/src/exercises/multi-room-chat/multi-room-chat.gateway.ts:169-192 | A move, performed, keeps the invariant and is observed as five deliveries. First the old room's two notices, then the history for the mover alone, then the new room's arrival notice and member list. Those last two reach exactly the new room's sockets, mover included. The old list names exactly the old room's users before the move; the new list names exactly the new room's users after it. |
| `RoomSession.EnterReplay` | fe/src/exercises/multi-room-chat/multi-room-chat.gateway.ts:116-134 | A join that moves nobody, performed, keeps the invariant. The history goes to the requester alone. The arrival notice and the member list reach exactly the room's sockets. The list names exactly the users recorded in the room afterwards, the joiner among them. |
| `RoomGateway.HandleConnection` | fe/src/exercises/multi-room-chat/multi-room-chat.gateway.ts:47-49 | The handler leaves the registry as it was and emits nothing. |
| `RoomSession.ConnectIsQuiet` | fe/src/exercises/multi-room-chat/multi-room-chat.gateway.ts:47-49 | A connection, through `RoomGateway.HandleConnection`, only registers the socket with the transport: no record, no group, no emission. |
| `RoomSession.RejectionIsPrivate` | fe/src/exercises/multi-room-chat/multi-room-chat.gateway.ts:86-97 | A rejected join, switch or send reaches the requester alone, as one `'error'`, and changes neither the registry nor the groups. |
| `RoomSession.SwitchToSameRoomIsQuiet` | fe/src/exercises/multi-room-chat/multi-room-chat.gateway.ts:162-167 | Switching to the room one is already in changes nothing and delivers nothing. |
| `RoomSession.JoinFromOtherRoom` | fe/src/exercises/multi-room-chat/multi-room-chat.gateway.ts:99-134 | A join from another room keeps the invariant. The old room hears of the departure before the new room hears anything, and the old room's list names exactly its users before the move, the leaver included. |
| `RoomSession.JoinWithoutMove` | fe/src/exercises/multi-room-chat/multi-room-chat.gateway.ts:115-134 | A first join, or a re-join of the current room: there are no leave notices, and the socket ends up recorded in the room. It gets the history alone, then the room, joiner included, gets the arrival notice and a list naming exactly the room's users, the joiner among them. |
| `RoomSession.SwitchToOtherRoom` | fe/src/exercises/multi-room-chat/multi-room-chat.gateway.ts:169-192 | A switch to another room keeps the invariant and is observed as the same leave-then-enter sequence as a join, under the name already on record. |
| `RoomSession.SendReachesRoom` | fe/src/exercises/multi-room-chat/multi-room-chat.gateway.ts:235-254 | An accepted message leaves the groups alone. It reaches exactly the sockets of its room, sender included, and is the newest entry of that room's history. |
| `RoomSession.DisconnectObserved` | fe/src/exercises/multi-room-chat/multi-room-chat.gateway.ts:55-70 | A disconnect forgets the socket and keeps the invariant. A joined socket's departure and a member list reach exactly the rest of its last room. That list names every remaining occupant and no one else. A socket that never joined causes no delivery. |
| `RoomSession.StepKeepsInv` | fe/src/exercises/multi-room-chat/multi-room-chat.gateway.ts:47-254 | Every admissible event keeps the group memberships in step with the registry. |
| `Text.Trim` | fe/src/exercises/multi-room-chat/multi-room-chat.gateway.ts:82 | The trimmed string is no longer than the input and neither starts nor ends with whitespace. |
| `Text.TrimIsSlice` | fe/src/exercises/multi-room-chat/multi-room-chat.gateway.ts:82 | `trim` removes only a whitespace prefix and a whitespace suffix: the result is a contiguous slice of the input. |
| `Text.TrimIdempotent` | be/src/exercises/multi-room-chat/multi-room-chat.service.ts:117 | Trimming an already trimmed body changes nothing, so the service's second `trim` is harmless. |
| `Text.TrimEmptyIffBlank` | fe/src/exercises/multi-room-chat/multi-room-chat.gateway.ts:86 | The trimmed string is empty exactly when the input is all whitespace. |
| `OrderedMap.Get` | be/src/exercises/multi-room-chat/multi-room-chat.service.ts:65-67 | `map.get(k)` finds a value exactly when the key is present, and the value found is stored under that key. |
| `OrderedMap.Set` | be/src/exercises/multi-room-chat/multi-room-chat.service.ts:45 | `map.set` of a present key keeps the length and the key order, and the entry `(k, v)` is then stored. Entries under other keys stay at their positions and nothing else is added. A new key is appended last. |
| `OrderedMap.SetReplaces` | be/src/exercises/multi-room-chat/multi-room-chat.service.ts:45 | In a map with distinct keys, `set(k, v)` puts `(k, v)` at the very position `k` had, so an existing key is replaced in place. |
| `OrderedMap.Delete` | be/src/exercises/multi-room-chat/multi-room-chat.service.ts:57 | `map.delete` of an absent key changes nothing. The entries that survive are exactly those under other keys. In a map with distinct keys, the one entry under `k` is cut out and the rest keep their order. |
| `OrderedMap.Values` | be/src/exercises/multi-room-chat/multi-room-chat.service.ts:75 | `Array.from(map.values())` lists the stored values in insertion order. |
| `OrderedMap.EntryInIffGet` | be/src/exercises/multi-room-chat/multi-room-chat.service.ts:65-67 | In a map without duplicate keys, an entry is stored exactly when `get` of its key returns its value. |
| `OrderedMap.SetValid` | be/src/exercises/multi-room-chat/multi-room-chat.service.ts:45 | `set` keeps keys distinct. |
| `OrderedMap.GetSet` | be/src/exercises/multi-room-chat/multi-room-chat.service.ts:45 | After `set(k, v)`, `get(k)` is `v` and every other key reads as before. |
| `OrderedMap.DeleteValid` | be/src/exercises/multi-room-chat/multi-room-chat.service.ts:57 | `delete` keeps keys distinct. |
| `OrderedMap.GetDelete` | be/src/exercises/multi-room-chat/multi-room-chat.service.ts:57 | After `delete(k)`, `get(k)` is absent and every other key reads as before. |
| `OrderedMap.DeleteKeeps` | be/src/exercises/multi-room-chat/multi-room-chat.service.ts:57 | `delete(k)` keeps every entry stored under another key. |
| `History.Push` | be/src/exercises/chat/chat.service.ts:79-84 | Push then shift-if-over-capacity yields a suffix of the old history plus the new entry. Nothing is dropped while there is room, and exactly the oldest entry is dropped when there is not. The capacity bound is kept. |
| `History.PushKeepsWindow` | be/src/exercises/chat/chat.service.ts:79-84 | One push into a history within capacity does not change which entries are the newest `cap`. |
| `History.PushAllKeepsNewest` | be/src/exercises/chat/chat.service.ts:79-84 | From a history within capacity, any run of pushes leaves exactly the newest `cap` entries of everything pushed, oldest first (FIFO eviction). The newest entries are given by the reference definition `History.Window`, the last `min(cap, length)` elements of the whole pushed sequence. |
| `History.SliceFrom` | be/src/exercises/chat/chat.service.ts:95 | `slice(start)` with a negative start keeps the last `-start` elements, and with a non-negative start drops the first `start`. |
| `History.Recent` | be/src/exercises/chat/chat.service.ts:93-98 | A missing limit or a limit of 0 copies the whole history. A positive limit gives the last `min(limit, length)` entries. A negative limit drops the first `-limit`. |
| `ChatService.Init` | be/src/exercises/chat/chat.service.ts:11-14 | A fresh service is valid, knows no socket and has no messages. |
| `ChatService.GetUser` | be/src/exercises/chat/chat.service.ts:47-49 | A found user is the entry stored under that socket id, and in a valid service it carries that id. |
| `ChatService.AddUser` | be/src/exercises/chat/chat.service.ts:22-29 | The socket reads back as `{id: socketId, name}`, overwriting any earlier record. Nobody else and no message changes, and validity is kept. |
| `ChatService.RemoveUser` | be/src/exercises/chat/chat.service.ts:36-42 | It returns what `getUser` found, then the socket reads as absent. Nothing else changes, and nothing at all changes for an unknown socket. |
| `ChatService.RemoveUserTwice` | be/src/exercises/chat/chat.service.ts:36-42 | A second removal of the same socket returns absent and changes nothing. |
| `ChatService.GetAllUsers` | be/src/exercises/chat/chat.service.ts:54-56 | There is one entry per stored user. |
| `ChatService.AllUsersIffGet` | be/src/exercises/chat/chat.service.ts:54-56 | In a valid service, `getAllUsers` lists a user exactly when `getUser` of its id returns it. |
| `ChatService.AddMessage` | be/src/exercises/chat/chat.service.ts:65-87 | It returns null, changing nothing, exactly when the sender is unknown. Otherwise the message carries the sender's id, stored name and trimmed body, and it is pushed last with FIFO eviction. Users are unchanged, and the 100-entry bound is kept. |
| `ChatService.GetMessages` | be/src/exercises/chat/chat.service.ts:93-98 | With no limit, or a limit of 0, it returns all messages. With a positive limit it returns the last `min(limit, length)` messages in order. With a negative limit it drops the first `-limit` messages (`slice` with a positive start). |
| `ChatService.AddAllPushes` | be/src/exercises/chat/chat.service.ts:65-87 | A run of `addMessage` calls from known senders is the same run of history pushes of the messages it creates. Each call has its own sender, id and clock reading. |
| `ChatService.AddMessagesKeepNewest` | be/src/exercises/chat/chat.service.ts:79-84 | After any run of accepted messages, whatever their senders and clock readings, the history is exactly the newest 100 of everything, oldest first. |
| `ChatGateway.WireInjective` | fe/src/exercises/chat/chat.types.ts:1-8 | The six `ChatEvents` names are pairwise distinct. |
| `ChatGateway.HandleDisconnect` | be/src/exercises/chat/chat.gateway.ts:44-53 | The socket is forgotten, and nobody else and no message changes. A joined socket yields one `user_left` with its stored name to everyone. A socket that never joined yields nothing. |
| `ChatGateway.HandleJoinRoom` | be/src/exercises/chat/chat.gateway.ts:60-84 | A blank name is a private error that changes nothing. Otherwise the socket is recorded, or renamed, under the trimmed name, and nobody else changes. The whole history goes to the joiner, then `user_joined` goes to everyone. |
| `ChatGateway.HandleSendMessage` | be/src/exercises/chat/chat.gateway.ts:91-124 | A blank body is an error, checked before the not-joined error. Each failure changes nothing. On success the stored message is pushed last, and one `new_message` with its id, name, body and timestamp goes to everyone. |
| `ChatGateway.HandleConnection` | be/src/exercises/chat/chat.gateway.ts:36-38 | The handler leaves the service as it was and emits nothing. |
| `ChatSession.ConnectIsQuiet` | be/src/exercises/chat/chat.gateway.ts:36-38 | A connection, through `ChatGateway.HandleConnection`, only registers the socket with the transport: no record, no emission. |
| `ChatSession.DisconnectObserved` | be/src/exercises/chat/chat.gateway.ts:44-53 | A disconnect forgets the socket and keeps the invariant. A joined socket's `user_left` reaches every socket still connected, and not the leaver. A socket that never joined causes no delivery. |
| `ChatSession.RejectionIsPrivate` | be/src/exercises/chat/chat.gateway.ts:64-70 | A rejected join or send reaches the requester alone, as one `'error'`, and changes nothing. |
| `ChatSession.JoinBlankRejected` | be/src/exercises/chat/chat.gateway.ts:64-70 | A missing or blank name gives the requester one `'error'` and changes nothing. |
| `ChatSession.JoinObserved` | be/src/exercises/chat/chat.gateway.ts:72-83 | An accepted join records the trimmed name and keeps the invariant. The joiner alone gets the whole history, then every connected socket, the joiner included, gets `user_joined`. |
| `ChatSession.SendBlankRejected` | be/src/exercises/chat/chat.gateway.ts:95-101 | A missing or blank body is refused privately, whether or not the sender has joined. |
| `ChatSession.SendUnjoinedRejected` | be/src/exercises/chat/chat.gateway.ts:103-108 | A non-blank message from a socket that has not joined is refused privately. |
| `ChatSession.SendObserved` | be/src/exercises/chat/chat.gateway.ts:110-123 | An accepted message keeps the invariant and is the newest history entry. It reaches every connected socket, sender included. |
| `ChatSession.StepKeepsInv` | be/src/exercises/chat/chat.gateway.ts:36-123 | Every admissible event keeps the service valid, keeps every joined socket connected, and uses no groups. |
| `CounterService.Init` | be/src/exercises/counter/counter.service.ts:10 | The count starts at 0. |
| `CounterService.IncrementCount` | be/src/exercises/counter/counter.service.ts:16-19 | The count grows by exactly one, and the new count is returned. |
| `CounterService.DecrementCount` | be/src/exercises/counter/counter.service.ts:22-31 | A positive count shrinks by exactly one, and a count at or below zero stays put. The new count is returned and is never negative when the old one was not. |
| `CounterService.ReturnedIsCount` | be/src/exercises/counter/counter.service.ts:16-38 | What `incrementCount` and `decrementCount` return is what `getCount` reads right after them. |
| `CounterService.IncrementThenDecrement` | be/src/exercises/counter/counter.service.ts:16-31 | From a non-negative count, an increment followed by a decrement restores the counter. |
| `CounterGateway.HandleConnection` | fe/src/exercises/counter/counter.gateway.ts:35-41 | A connection adds one to the count and broadcasts exactly one update, to everyone, carrying the new count. |
| `CounterGateway.HandleDisconnect` | fe/src/exercises/counter/counter.gateway.ts:48-55 | A disconnection decrements the count, stopping at zero, and broadcasts exactly one update carrying the new count, which is non-negative when the old one was. |
| `CounterGateway.CountNeverNegative` | fe/src/exercises/counter/counter.gateway.ts:48-55 | From a fresh service, no sequence of connections and disconnections takes the count, and so any broadcast count, below zero. |
| `CounterGateway.CountIsBalance` | fe/src/exercises/counter/counter.gateway.ts:35-55 | If no prefix has more disconnections than connections, the count after `n` connections and `m` disconnections is `n - m`. |
| `CounterGateway.LastAnnouncement` | fe/src/exercises/counter/counter.gateway.ts:35-55 | Under the same condition, the last broadcast after `n` connections and `m` disconnections carries `n - m`. |
| `CounterGateway.StepObserved` | fe/src/exercises/counter/counter.gateway.ts:35-55 | On the transport, each admissible event keeps the count equal to the number of connected sockets. It yields exactly one update, which reaches every connected socket and carries the number of its recipients. The newcomer receives it and the leaver does not. |

## Left out

- Names and bodies that are not strings. A non-string `userName` or `message` makes `.trim()` throw, and that case is not modelled. Fields are modelled as present strings or absent (`None`). A room name that is not a string fails `AVAILABLE_ROOMS.includes` in the same way an absent one does, so it is covered by `None`.
- A missing `data` payload. `data.userName` on an undefined `data` throws before any check, so it is not modelled.
- Clock and id generation. `Date.now()`, `Math.random()` and `new Date()` are parameters. One handler call reads one clock value, so every timestamp of one reaction is the same `now`.
- UTF-16. Strings are sequences of Unicode code points, and lengths are counted in code points, not UTF-16 units. Trimming is unaffected because every whitespace character is a single unit.
- Non-integer limits. `getMessages` and `getRoomMessages` take an integer or no `limit`. Fractional and `NaN` limits of the JavaScript number type are not modelled.
- `SEND_FAILED` in both chat gateways. The model keeps the branch where `addMessage` or `addMessageToRoom` returns null after the gateway's own checks passed. The contracts show that branch cannot be reached, so no contract mentions it.
- The `ONLINE_COUNT_UPDATE` wire string. `counter.types.ts` is not part of this model, so the update event is the `CountUpdate` payload without its name.
- Socket.IO internals:
  - the per-socket room every socket joins under its own id;
  - a namespace shared by several gateways;
  - acknowledgements;
  - asynchronous `join` and `leave` promises, which are modelled as immediate.
- Delivery. Who receives an emission is computed at the moment of the emission, and actual network delivery is outside the model.
- Concurrency. Events are handled one at a time, as in the single-threaded event loop.
- The Next.js pages, the Apollo client and mock data, the Redis/Postgres cart, the socket client and the NestJS module wiring. None of these is part of the chat and counter core.
- `CounterService.GetCount` has no contract of its own, because it is a plain read. `CounterService.ReturnedIsCount` relates it to the two mutators.
- `ChatService.GetAllUsers`: its own contract states only the length. Which users it lists is stated by `ChatService.AllUsersIffGet`.
- `RoomGateway.BroadcastRoomUsersUpdate`: its own contract states only the target and the room. The list's contents are stated by `RoomGateway.NamesCoverRoom` and `RoomGateway.NamesFromRoom`, whose quantifiers are kept off the function.

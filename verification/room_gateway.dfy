/** `MultiRoomChatGateway`: each handler takes the registry, the requesting
    socket and the command's payload, and returns the new registry with the
    ordered list of effects the handler issues (`client.join`,
    `client.leave`, `client.emit`, `server.to(room).emit`). Payload fields
    are `None` when the client left them out. `now` is the clock reading
    every `new Date()` of one handler call returns; `messageId` is the id
    `addMessageToRoom` would draw. */
module RoomGateway {
  import opened Wrappers
  import opened Transport
  import opened RoomTypes
  import opened RoomRegistry
  import Text

  /** Outbound events, one constructor per payload shape, each emitted
      under one name. */
  datatype Event =
    | ErrorEvent(text: string)                                           // 'error'
    | HistoryEvent(roomName: Room, messages: seq<RoomMessage>)           // 'room_messages_history'
    | JoinedEvent(userName: string, roomName: Room, timestamp: int)      // USER_JOINED_ROOM
    | LeftEvent(userName: string, roomName: Room, timestamp: int)        // USER_LEFT_ROOM
    | MembersEvent(roomName: Room, users: seq<string>)                   // ROOM_USERS_UPDATE
    | MessageEvent(message: RoomMessage)                                 // NEW_MESSAGE

  /** Inbound traffic for one socket. */
  datatype Command =
    | Connect
    | Disconnect
    | Join(userName: Option<string>, roomName: Option<string>)
    | Switch(newRoomName: Option<string>)
    | Send(message: Option<string>, roomName: Option<string>)

  datatype Clock = Clock(now: int, messageId: string)

  datatype Reaction = Reaction(reg: Registry, effects: seq<Effect<Event>>)

  /** `xs.join(sep)`. */
  function JoinWith(xs: seq<string>, sep: string): string {
    if |xs| == 0 then ""
    else if |xs| == 1 then xs[0]
    else xs[0] + sep + JoinWith(xs[1..], sep)
  }

  const INVALID_NAME: string := "Tên không hợp lệ"
  const INVALID_ROOM_WITH_LIST: string := "Room không hợp lệ. Chỉ có: " + JoinWith(AVAILABLE_ROOMS, ", ")
  const NOT_JOINED_ANY: string := "Bạn chưa join room nào"
  const EMPTY_MESSAGE: string := "Message không được để trống"
  const INVALID_ROOM: string := "Room không hợp lệ"
  const NOT_JOINED: string := "Bạn chưa join room"
  const NOT_IN_ROOM: string := "Bạn không ở trong room này"
  const SEND_FAILED: string := "Không thể gửi message"

  /** A rejected command: one `'error'` to the requester, nothing else. */
  function Reject(reg: Registry, message: string): Reaction {
    Reaction(reg, [Emit(ToClient, ErrorEvent(message))])
  }

  function Names(users: seq<RoomUser>): (names: seq<string>)
    ensures |names| == |users|
    ensures forall i | 0 <= i < |users| :: names[i] == users[i].userName
  {
    if |users| == 0 then [] else [users[0].userName] + Names(users[1..])
  }

  /** `broadcastRoomUsersUpdate(roomName)`: the room's member names, read
      from `reg` at the moment of the call, sent to the room's group. */
  function BroadcastRoomUsersUpdate(reg: Registry, room: Room): (e: Effect<Event>)
    ensures e.Emit? && e.target == ToGroup(Name(room))
    ensures e.event.MembersEvent? && e.event.roomName == room
  {
    Emit(ToGroup(Name(room)), MembersEvent(room, Names(GetUsersInRoom(reg, room))))
  }

  /** Every user recorded in `room` is named in the room's member list. */
  lemma NamesCoverRoom(reg: Registry, room: Room)
    requires Valid(reg)
    ensures forall sid | GetUser(reg, sid).Some? && GetUser(reg, sid).value.currentRoom == room ::
      GetUser(reg, sid).value.userName in BroadcastRoomUsersUpdate(reg, room).event.users
  {
    var users := GetUsersInRoom(reg, room);
    var names := Names(users);
    forall sid | GetUser(reg, sid).Some? && GetUser(reg, sid).value.currentRoom == room
      ensures GetUser(reg, sid).value.userName in names
    {
      var u := GetUser(reg, sid).value;
      assert u.socketId == sid by {
        assert OrderedMap.Entry(sid, u) in reg.users;
      }
      ListedIffInRoom(reg, room, u);
      var i :| 0 <= i < |users| && users[i] == u;
      assert names[i] == u.userName;
    }
  }

  /** Every name in the room's member list belongs to a user recorded in
      the room. */
  lemma NamesFromRoom(reg: Registry, room: Room)
    requires Valid(reg)
    ensures forall n | n in BroadcastRoomUsersUpdate(reg, room).event.users :: exists sid ::
      GetUser(reg, sid).Some? && GetUser(reg, sid).value.currentRoom == room && GetUser(reg, sid).value.userName == n
  {
    var users := GetUsersInRoom(reg, room);
    var names := Names(users);
    forall n | n in names
      ensures exists sid :: GetUser(reg, sid).Some? && GetUser(reg, sid).value.currentRoom == room && GetUser(reg, sid).value.userName == n
    {
      var i :| 0 <= i < |names| && names[i] == n;
      ListedIffInRoom(reg, room, users[i]);
      assert GetUser(reg, users[i].socketId) == Some(users[i]);
    }
  }

  /** The requester is recorded in a room other than `room`. */
  predicate Moving(reg: Registry, sid: SocketId, room: Room) {
    GetUser(reg, sid).Some? && GetUser(reg, sid).value.currentRoom != room
  }

  /** The old-room half of a move: the requester leaves the old group, the
      old room hears that the user left, then receives its member list read
      from `reg`, the registry as it was before the move. */
  function LeaveSide(reg: Registry, user: RoomUser, now: int): seq<Effect<Event>> {
    [ LeaveGroup(Name(user.currentRoom)),
      Emit(ToGroup(Name(user.currentRoom)), LeftEvent(user.userName, user.currentRoom, now)),
      BroadcastRoomUsersUpdate(reg, user.currentRoom) ]
  }

  /** The new-room half of a join or a move: the requester joins the group
      and alone receives the room's history; the room hears of the arrival,
      then receives its member list read from `reg`, the registry after the
      move. */
  function EnterSide(reg: Registry, room: Room, userName: string, now: int): seq<Effect<Event>> {
    [ JoinGroup(Name(room)),
      Emit(ToClient, HistoryEvent(room, GetRoomMessages(reg, room, None))),
      Emit(ToGroup(Name(room)), JoinedEvent(userName, room, now)),
      BroadcastRoomUsersUpdate(reg, room) ]
  }

  /** `handleConnection`: nothing happens until the client joins. */
  function HandleConnection(reg: Registry, sid: SocketId): (r: Reaction)
    ensures r.reg == reg && r.effects == []
  {
    Reaction(reg, [])
  }

  /** `handleDisconnect`: forgets the socket; a socket that had joined is
      announced as gone to its last room, which then gets its member list. */
  function HandleDisconnect(reg: Registry, sid: SocketId, now: int): (r: Reaction)
    ensures GetUser(r.reg, sid) == None
    ensures forall s | s != sid :: GetUser(r.reg, s) == GetUser(reg, s)
    ensures forall ro: Room :: Messages(r.reg, ro) == Messages(reg, ro)
    ensures GetUser(reg, sid).None? ==> r == Reaction(reg, [])
    ensures GetUser(reg, sid).Some? ==>
      var u := GetUser(reg, sid).value;
      r.effects == [ Emit(ToGroup(Name(u.currentRoom)), LeftEvent(u.userName, u.currentRoom, now)),
                     BroadcastRoomUsersUpdate(r.reg, u.currentRoom) ]
    ensures Valid(reg) ==> Valid(r.reg)
  {
    var removed := RemoveUser(reg, sid);
    match removed.result
    case None => Reaction(removed.reg, [])
    case Some(user) =>
      Reaction(removed.reg, [ Emit(ToGroup(Name(user.currentRoom)), LeftEvent(user.userName, user.currentRoom, now)),
                            BroadcastRoomUsersUpdate(removed.reg, user.currentRoom) ])
  }

  /** `handleJoinRoom`. */
  function HandleJoinRoom(reg: Registry, sid: SocketId, userName: Option<string>, roomName: Option<string>, now: int)
    : (r: Reaction)
    // the name is checked first, then the room; a rejection changes nothing
    ensures Text.Blank(userName) ==> r == Reject(reg, INVALID_NAME)
    ensures !Text.Blank(userName) && ParseRoom(roomName).None? ==> r == Reject(reg, INVALID_ROOM_WITH_LIST)
    ensures !Text.Blank(userName) && ParseRoom(roomName).Some? ==>
      var room := ParseRoom(roomName).value;
      var user := RoomUser(sid, Text.Trim(userName.value), room);
      // recorded under the new room with the (possibly new) trimmed name; nobody else changes
      && GetUser(r.reg, sid) == Some(user)
      && (forall s | s != sid :: GetUser(r.reg, s) == GetUser(reg, s))
      && (forall ro: Room :: Messages(r.reg, ro) == Messages(reg, ro))
      // the old room's side of a move first, then the new room's side
      && r.effects == (if Moving(reg, sid, room) then LeaveSide(reg, GetUser(reg, sid).value, now) else [])
                      + EnterSide(r.reg, room, user.userName, now)
    ensures Valid(reg) ==> Valid(r.reg)
  {
    if Text.Blank(userName) then Reject(reg, INVALID_NAME)
    else
      match ParseRoom(roomName)
      case None => Reject(reg, INVALID_ROOM_WITH_LIST)
      case Some(room) =>
        var name := Text.Trim(userName.value);
        var existing := GetUser(reg, sid);
        var leave := if existing.Some? && existing.value.currentRoom != room
                     then LeaveSide(reg, existing.value, now) else [];
        var added := AddUserToRoom(reg, sid, name, room);
        Reaction(added.reg, leave + EnterSide(added.reg, room, added.result.userName, now))
  }

  /** `handleSwitchRoom`. */
  function HandleSwitchRoom(reg: Registry, sid: SocketId, newRoomName: Option<string>, now: int): (r: Reaction)
    // the room is checked before membership; a rejection changes nothing
    ensures ParseRoom(newRoomName).None? ==> r == Reject(reg, INVALID_ROOM_WITH_LIST)
    ensures ParseRoom(newRoomName).Some? && GetUser(reg, sid).None? ==> r == Reject(reg, NOT_JOINED_ANY)
    // switching to the room one is in does nothing at all
    ensures ParseRoom(newRoomName).Some? && GetUser(reg, sid).Some? && !Moving(reg, sid, ParseRoom(newRoomName).value) ==>
      r == Reaction(reg, [])
    ensures ParseRoom(newRoomName).Some? && Moving(reg, sid, ParseRoom(newRoomName).value) ==>
      var room := ParseRoom(newRoomName).value;
      var user := GetUser(reg, sid).value;
      // only the room changes, the name is kept; nobody else changes
      && GetUser(r.reg, sid) == Some(user.(currentRoom := room))
      && (forall s | s != sid :: GetUser(r.reg, s) == GetUser(reg, s))
      && (forall ro: Room :: Messages(r.reg, ro) == Messages(reg, ro))
      && r.effects == LeaveSide(reg, user, now) + EnterSide(r.reg, room, user.userName, now)
    ensures Valid(reg) ==> Valid(r.reg)
  {
    match ParseRoom(newRoomName)
    case None => Reject(reg, INVALID_ROOM_WITH_LIST)
    case Some(room) =>
      match GetUser(reg, sid)
      case None => Reject(reg, NOT_JOINED_ANY)
      case Some(user) =>
        if user.currentRoom == room then Reaction(reg, [])
        else
          var leave := LeaveSide(reg, user, now);
          var switched := SwitchUserRoom(reg, sid, room);
          Reaction(switched.reg, leave + EnterSide(switched.reg, room, user.userName, now))
  }

  /** `handleSendMessage`. */
  function HandleSendMessage(reg: Registry, sid: SocketId, message: Option<string>, roomName: Option<string>, clock: Clock)
    : (r: Reaction)
    // checks in order: empty body, unknown room, not joined, other room; a rejection changes nothing
    ensures Text.Blank(message) ==> r == Reject(reg, EMPTY_MESSAGE)
    ensures !Text.Blank(message) && ParseRoom(roomName).None? ==> r == Reject(reg, INVALID_ROOM)
    ensures !Text.Blank(message) && ParseRoom(roomName).Some? && GetUser(reg, sid).None? ==> r == Reject(reg, NOT_JOINED)
    ensures !Text.Blank(message) && ParseRoom(roomName).Some? && Moving(reg, sid, ParseRoom(roomName).value) ==>
      r == Reject(reg, NOT_IN_ROOM)
    ensures !Text.Blank(message) && ParseRoom(roomName).Some? && GetUser(reg, sid).Some? && !Moving(reg, sid, ParseRoom(roomName).value) ==>
      var room := ParseRoom(roomName).value;
      var msg := RoomMessage(clock.messageId, room, GetUser(reg, sid).value.userName, Text.Trim(message.value), clock.now);
      // the stored message goes to the room's group, sender included ...
      && r.effects == [Emit(ToGroup(Name(room)), MessageEvent(msg))]
      // ... after landing last in that room's history
      && Messages(r.reg, room) == History.Push(Messages(reg, room), msg, MAX_MESSAGES_PER_ROOM)
      && r.reg.users == reg.users
      && (forall ro: Room | ro != room :: Messages(r.reg, ro) == Messages(reg, ro))
    ensures Valid(reg) ==> Valid(r.reg)
  {
    if Text.Blank(message) then Reject(reg, EMPTY_MESSAGE)
    else
      var text := Text.Trim(message.value);
      match ParseRoom(roomName)
      case None => Reject(reg, INVALID_ROOM)
      case Some(room) =>
        match GetUser(reg, sid)
        case None => Reject(reg, NOT_JOINED)
        case Some(user) =>
          if user.currentRoom != room then Reject(reg, NOT_IN_ROOM)
          else
            var added := AddMessageToRoom(reg, sid, room, text, clock.messageId, clock.now);
            Text.TrimIdempotent(message.value);
            match added.result
            case None => Reject(reg, SEND_FAILED)
            case Some(msg) => Reaction(added.reg, [Emit(ToGroup(Name(room)), MessageEvent(msg))])
  }

  /** Dispatches one command from socket `sid`. */
  function Handle(reg: Registry, sid: SocketId, cmd: Command, clock: Clock): Reaction {
    match cmd
    case Connect => HandleConnection(reg, sid)
    case Disconnect => HandleDisconnect(reg, sid, clock.now)
    case Join(name, room) => HandleJoinRoom(reg, sid, name, room, clock.now)
    case Switch(room) => HandleSwitchRoom(reg, sid, room, clock.now)
    case Send(body, room) => HandleSendMessage(reg, sid, body, room, clock)
  }
}

/** The vocabulary of the multi-room chat: the fixed set of rooms, the
    per-socket user record, the stored message, and the event names. */
module RoomTypes {
  import opened Wrappers
  import opened Transport

  /** `RoomName`: exactly the members of `AVAILABLE_ROOMS`. */
  datatype Room = General | Tech | Random

  /** The wire name of a room. */
  function Name(r: Room): string {
    match r
    case General => "general"
    case Tech => "tech"
    case Random => "random"
  }

  const AVAILABLE_ROOMS: seq<string> := ["general", "tech", "random"]

  /** `AVAILABLE_ROOMS.includes(x)` for a payload field `x` that may be
      missing (`None`), followed by the narrowing to `RoomName`. */
  function ParseRoom(x: Option<string>): (r: Option<Room>)
    ensures r.Some? <==> x.Some? && x.value in AVAILABLE_ROOMS
    ensures r.Some? ==> Name(r.value) == x.value
  {
    match x
    case None => None
    case Some(s) =>
      if s == "general" then Some(General)
      else if s == "tech" then Some(Tech)
      else if s == "random" then Some(Random)
      else None
  }

  /** The room set has three distinct names, and `Room` names exactly
      them. */
  lemma AvailableRoomsExact()
    ensures |AVAILABLE_ROOMS| == 3
    ensures forall i, j | 0 <= i < j < |AVAILABLE_ROOMS| :: AVAILABLE_ROOMS[i] != AVAILABLE_ROOMS[j]
    ensures forall r: Room :: Name(r) in AVAILABLE_ROOMS
    ensures forall s | s in AVAILABLE_ROOMS :: exists r: Room :: Name(r) == s
    ensures forall a: Room, b: Room :: Name(a) == Name(b) ==> a == b
  {
    assert Name(General) == AVAILABLE_ROOMS[0];
    assert Name(Tech) == AVAILABLE_ROOMS[1];
    assert Name(Random) == AVAILABLE_ROOMS[2];
  }

  /** Parsing a room's own name gives the room back. */
  lemma ParseName(r: Room)
    ensures ParseRoom(Some(Name(r))) == Some(r)
  {
  }

  /** The record `MultiRoomChatService` keeps per socket. */
  datatype RoomUser = RoomUser(socketId: SocketId, userName: string, currentRoom: Room)

  /** A stored message; `timestamp` is milliseconds since the epoch. */
  datatype RoomMessage = RoomMessage(id: string, roomName: Room, userName: string, message: string, timestamp: int)

  /** `MultiRoomChatEvents`. */
  datatype EventName =
    | JoinRoom | LeaveRoom | SendMessage | NewMessage
    | UserJoinedRoom | UserLeftRoom | RoomUsersUpdate | SwitchRoom

  function Wire(e: EventName): string {
    match e
    case JoinRoom => "join_room"
    case LeaveRoom => "leave_room"
    case SendMessage => "send_message"
    case NewMessage => "new_message"
    case UserJoinedRoom => "user_joined_room"
    case UserLeftRoom => "user_left_room"
    case RoomUsersUpdate => "room_users_update"
    case SwitchRoom => "switch_room"
  }

  /** The eight event names are pairwise distinct. */
  lemma WireInjective(a: EventName, b: EventName)
    ensures Wire(a) == Wire(b) ==> a == b
  {
  }
}

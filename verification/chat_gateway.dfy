/** `ChatGateway`: the single-room chat. Each handler takes the service, the
    requesting socket and the command's payload, and returns the new
    service with the ordered list of effects the handler issues
    (`client.emit`, `server.emit`). Payload fields are `None` when the
    client left them out. */
module ChatGateway {
  import opened Wrappers
  import opened Transport
  import opened ChatService
  import Text

  /** `ChatEvents`. */
  datatype ChatEvent = UserJoin | UserLeave | SendMessage | NewMessage | UserJoined | UserLeft

  function Wire(e: ChatEvent): string {
    match e
    case UserJoin => "user_join"
    case UserLeave => "user_leave"
    case SendMessage => "send_message"
    case NewMessage => "new_message"
    case UserJoined => "user_joined"
    case UserLeft => "user_left"
  }

  /** The six event names are pairwise distinct. */
  lemma WireInjective(a: ChatEvent, b: ChatEvent)
    ensures Wire(a) == Wire(b) ==> a == b
  {
  }

  /** Outbound events, one constructor per payload shape, each emitted
      under one name. */
  datatype Event =
    | ErrorEvent(text: string)                                                     // 'error'
    | HistoryEvent(messages: seq<ChatMessage>)                                     // 'messages_history'
    | JoinedEvent(userName: string, timestamp: int)                                // USER_JOINED
    | LeftEvent(userName: string, timestamp: int)                                  // USER_LEFT
    | MessageEvent(id: string, userName: string, message: string, timestamp: int)  // NEW_MESSAGE

  /** Inbound traffic for one socket. */
  datatype Command =
    | Connect
    | Disconnect
    | Join(userName: Option<string>)
    | Send(message: Option<string>)

  /** The clock reading every `new Date()` of one handler call returns, and
      the id `addMessage` would draw. */
  datatype Clock = Clock(now: int, messageId: string)

  datatype Reaction = Reaction(svc: Service, effects: seq<Effect<Event>>)

  const INVALID_NAME: string := "Tên không hợp lệ"
  const EMPTY_MESSAGE: string := "Message không được để trống"
  const NOT_JOINED: string := "Bạn chưa join room"
  const SEND_FAILED: string := "Không thể gửi message"

  /** A rejected command: one `'error'` to the requester, nothing else. */
  function Reject(svc: Service, message: string): Reaction {
    Reaction(svc, [Emit(ToClient, ErrorEvent(message))])
  }

  /** The `NEW_MESSAGE` payload of a stored message. */
  function Announce(m: ChatMessage): Event {
    MessageEvent(m.id, m.userName, m.message, m.timestamp)
  }

  /** `handleConnection`: nothing happens until the client joins. */
  function HandleConnection(svc: Service, sid: SocketId): (r: Reaction)
    ensures r.svc == svc && r.effects == []
  {
    Reaction(svc, [])
  }

  /** `handleDisconnect`. */
  function HandleDisconnect(svc: Service, sid: SocketId, now: int): (r: Reaction)
    // the socket is forgotten; nobody else and no message changes
    ensures GetUser(r.svc, sid) == None
    ensures forall s | s != sid :: GetUser(r.svc, s) == GetUser(svc, s)
    ensures r.svc.messages == svc.messages
    // a socket that never joined leaves silently
    ensures GetUser(svc, sid).None? ==> r == Reaction(svc, [])
    // one that had joined is announced, by its stored name, to everybody
    ensures GetUser(svc, sid).Some? ==>
      r.effects == [Emit(ToAll, LeftEvent(GetUser(svc, sid).value.name, now))]
    ensures Valid(svc) ==> Valid(r.svc)
  {
    var removed := RemoveUser(svc, sid);
    match removed.result
    case None => Reaction(removed.svc, [])
    case Some(user) => Reaction(removed.svc, [Emit(ToAll, LeftEvent(user.name, now))])
  }

  /** `handleJoinRoom`. */
  function HandleJoinRoom(svc: Service, sid: SocketId, userName: Option<string>, now: int): (r: Reaction)
    // a missing or blank name is refused and changes nothing
    ensures Text.Blank(userName) ==> r == Reject(svc, INVALID_NAME)
    ensures !Text.Blank(userName) ==>
      var name := Text.Trim(userName.value);
      // recorded (or renamed) under the trimmed name; nobody else changes
      && GetUser(r.svc, sid) == Some(ChatUser(sid, name))
      && (forall s | s != sid :: GetUser(r.svc, s) == GetUser(svc, s))
      && r.svc.messages == svc.messages
      // the whole history to the joiner alone, then the arrival to everybody
      && r.effects == [ Emit(ToClient, HistoryEvent(svc.messages)),
                        Emit(ToAll, JoinedEvent(name, now)) ]
    ensures Valid(svc) ==> Valid(r.svc)
  {
    if Text.Blank(userName) then Reject(svc, INVALID_NAME)
    else
      var added := AddUser(svc, sid, Text.Trim(userName.value));
      var messages := GetMessages(added.svc, None);
      Reaction(added.svc, [ Emit(ToClient, HistoryEvent(messages)),
                          Emit(ToAll, JoinedEvent(added.result.name, now)) ])
  }

  /** `handleSendMessage`. */
  function HandleSendMessage(svc: Service, sid: SocketId, message: Option<string>, clock: Clock): (r: Reaction)
    // the body is checked before membership; a rejection changes nothing
    ensures Text.Blank(message) ==> r == Reject(svc, EMPTY_MESSAGE)
    ensures !Text.Blank(message) && GetUser(svc, sid).None? ==> r == Reject(svc, NOT_JOINED)
    ensures !Text.Blank(message) && GetUser(svc, sid).Some? ==>
      var user := GetUser(svc, sid).value;
      var msg := ChatMessage(clock.messageId, user.id, user.name, Text.Trim(message.value), clock.now);
      // the stored message goes to everybody, sender included ...
      && r.effects == [Emit(ToAll, Announce(msg))]
      // ... after landing last in the history
      && r.svc.messages == History.Push(svc.messages, msg, MAX_MESSAGES)
      && r.svc.users == svc.users
    ensures Valid(svc) ==> Valid(r.svc)
  {
    if Text.Blank(message) then Reject(svc, EMPTY_MESSAGE)
    else
      var text := Text.Trim(message.value);
      match GetUser(svc, sid)
      case None => Reject(svc, NOT_JOINED)
      case Some(_) =>
        var added := AddMessage(svc, sid, text, clock.messageId, clock.now);
        Text.TrimIdempotent(message.value);
        match added.result
        case None => Reject(svc, SEND_FAILED)
        case Some(msg) => Reaction(added.svc, [Emit(ToAll, Announce(msg))])
  }

  /** Dispatches one command from socket `sid`. */
  function Handle(svc: Service, sid: SocketId, cmd: Command, clock: Clock): Reaction {
    match cmd
    case Connect => HandleConnection(svc, sid)
    case Disconnect => HandleDisconnect(svc, sid, clock.now)
    case Join(name) => HandleJoinRoom(svc, sid, name, clock.now)
    case Send(body) => HandleSendMessage(svc, sid, body, clock)
  }
}

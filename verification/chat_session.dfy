/** The single-room gateway running on the transport: a `World` is the
    service plus the Socket.IO hub, and `Step` handles one inbound event
    from one socket, performs the handler's effects in order and reports
    who received what. */
module ChatSession {
  import opened Wrappers
  import opened Transport
  import opened ChatService
  import opened ChatGateway
  import Text

  datatype World = World(svc: Service, hub: Hub)

  /** The world after an event, and what the sockets observed, in order. */
  datatype Outcome = Outcome(world: World, deliveries: seq<Delivery<Event>>)

  /** Server start: an empty service and no connections. */
  function Start(): World {
    World(Init(), Idle())
  }

  /** What the transport guarantees of the events it delivers: a connection
      id is fresh when it connects, and every other event comes from a
      connected socket. */
  predicate Admissible(w: World, sid: SocketId, cmd: Command) {
    if cmd.Connect? then sid !in w.hub.connected else sid in w.hub.connected
  }

  /** The service is valid, every joined socket is connected, and the chat
      uses no groups. */
  ghost predicate Inv(w: World) {
    && Valid(w.svc)
    && (forall s | GetUser(w.svc, s).Some? :: s in w.hub.connected)
    && w.hub.groups == {}
  }

  /** One inbound event from socket `sid`. Socket.IO registers a connection
      before the connect handler and drops it before the disconnect
      handler. */
  function Step(w: World, sid: SocketId, cmd: Command, clock: Clock): (r: Outcome)
    ensures r.world.hub.connected == if cmd.Connect? then w.hub.connected + {sid}
                                 else if cmd.Disconnect? then w.hub.connected - {sid}
                                 else w.hub.connected
  {
    var hub := match cmd
      case Connect => Transport.Connect(w.hub, sid)
      case Disconnect => Transport.Disconnect(w.hub, sid)
      case _ => w.hub;
    Perform(World(w.svc, hub), sid, Handle(w.svc, sid, cmd, clock))
  }

  /** A handler's reaction performed on the world's hub. */
  function Perform(w: World, sid: SocketId, reaction: Reaction): Outcome {
    var rp := Replay(w.hub, sid, reaction.effects);
    Outcome(World(reaction.svc, rp.hub), rp.deliveries)
  }

  lemma StartInv()
    ensures Inv(Start())
  {
  }

  /** Two emissions, performed: the groups stay as they are and each reaches
      the recipients of the moment. */
  lemma ReplayTwoEmits(hub: Hub, sid: SocketId, t1: Target, e1: Event, t2: Target, e2: Event)
    ensures Replay(hub, sid, [Emit(t1, e1), Emit(t2, e2)])
         == Replayed(hub, [Delivery(Recipients(hub, sid, t1), e1), Delivery(Recipients(hub, sid, t2), e2)])
  {
    assert [Emit(t1, e1), Emit(t2, e2)] == [Emit(t1, e1)] + [Emit(t2, e2)];
    ReplayEmitFirst(hub, sid, t1, e1, [Emit(t2, e2)]);
    ReplayOneEmit(hub, sid, t2, e2);
  }

  /** Connecting registers the socket with the transport and does nothing
      else: no record, no emission. */
  lemma ConnectIsQuiet(w: World, sid: SocketId, clock: Clock)
    ensures Step(w, sid, Connect, clock) == Outcome(World(w.svc, Transport.Connect(w.hub, sid)), [])
  {
  }

  /** A disconnect is the transport dropping the socket, then the handler's
      reaction performed on what is left. */
  lemma DisconnectStep(w: World, sid: SocketId, clock: Clock)
    ensures Step(w, sid, Disconnect, clock)
         == Perform(World(w.svc, Transport.Disconnect(w.hub, sid)), sid, HandleDisconnect(w.svc, sid, clock.now))
  {
  }

  /** Disconnecting forgets the socket. One that had joined is announced as
      gone, by its stored name, to every socket still connected and not to
      itself; one that never joined causes no emission. */
  lemma DisconnectObserved(w: World, sid: SocketId, clock: Clock)
    requires Inv(w)
    ensures var r := Step(w, sid, Disconnect, clock);
            && Inv(r.world)
            && GetUser(r.world.svc, sid).None?
            && (forall s | s != sid :: GetUser(r.world.svc, s) == GetUser(w.svc, s))
            && r.world.svc.messages == w.svc.messages
            && (GetUser(w.svc, sid).None? ==> r.deliveries == [] && r.world.svc == w.svc)
            && (GetUser(w.svc, sid).Some? ==>
                  r.deliveries == [Delivery(w.hub.connected - {sid}, LeftEvent(GetUser(w.svc, sid).value.name, clock.now))])
  {
    var hub := Transport.Disconnect(w.hub, sid);
    var reaction := HandleDisconnect(w.svc, sid, clock.now);
    DisconnectStep(w, sid, clock);
    if GetUser(w.svc, sid).Some? {
      ReplayOneEmit(hub, sid, ToAll, LeftEvent(GetUser(w.svc, sid).value.name, clock.now));
    }
    assert hub.groups == {} by {
      assert forall m: Membership :: m !in hub.groups;
    }
  }

  /** A room command leaves the connection set alone: the step is the
      handler's reaction, performed on the current hub. */
  lemma StepHandled(w: World, sid: SocketId, cmd: Command, clock: Clock)
    requires cmd.Join? || cmd.Send?
    ensures Step(w, sid, cmd, clock) == Perform(w, sid, Handle(w.svc, sid, cmd, clock))
  {
  }

  /** Every rejected command reaches the requester alone, as one `'error'`,
      and changes nothing. */
  lemma RejectionIsPrivate(w: World, sid: SocketId, cmd: Command, clock: Clock, text: string)
    requires cmd.Join? || cmd.Send?
    requires Handle(w.svc, sid, cmd, clock) == Reject(w.svc, text)
    ensures Step(w, sid, cmd, clock) == Outcome(w, [Delivery({sid}, ErrorEvent(text))])
  {
    StepHandled(w, sid, cmd, clock);
    ReplayOneEmit(w.hub, sid, ToClient, ErrorEvent(text));
  }

  /** A join with a missing or blank name is refused privately. */
  lemma JoinBlankRejected(w: World, sid: SocketId, userName: Option<string>, clock: Clock)
    requires Text.Blank(userName)
    ensures Step(w, sid, Join(userName), clock) == Outcome(w, [Delivery({sid}, ErrorEvent(INVALID_NAME))])
  {
    RejectionIsPrivate(w, sid, Join(userName), clock, INVALID_NAME);
  }

  /** A `user_join` is handled by `handleJoinRoom`. */
  lemma HandleIsJoin(svc: Service, sid: SocketId, userName: Option<string>, clock: Clock)
    ensures Handle(svc, sid, Join(userName), clock) == HandleJoinRoom(svc, sid, userName, clock.now)
  {
  }

  /** A `send_message` is handled by `handleSendMessage`. */
  lemma HandleIsSend(svc: Service, sid: SocketId, message: Option<string>, clock: Clock)
    ensures Handle(svc, sid, Send(message), clock) == HandleSendMessage(svc, sid, message, clock)
  {
  }

  /** Recording a connected socket, and changing nobody else, keeps the
      invariant. */
  lemma Recorded(w: World, sid: SocketId, svc': Service)
    requires Inv(w) && sid in w.hub.connected && Valid(svc')
    requires forall s | s != sid :: GetUser(svc', s) == GetUser(w.svc, s)
    ensures Inv(World(svc', w.hub))
  {
  }

  /** An accepted join's two emissions, performed on the current hub. */
  lemma JoinPerformed(w: World, sid: SocketId, userName: Option<string>, clock: Clock)
    requires !Text.Blank(userName)
    ensures var reaction := HandleJoinRoom(w.svc, sid, userName, clock.now);
            Perform(w, sid, reaction)
              == Outcome(World(reaction.svc, w.hub), [ Delivery({sid}, HistoryEvent(w.svc.messages)),
                                                Delivery(w.hub.connected, JoinedEvent(Text.Trim(userName.value), clock.now)) ])
  {
    ReplayTwoEmits(w.hub, sid, ToClient, HistoryEvent(w.svc.messages), ToAll, JoinedEvent(Text.Trim(userName.value), clock.now));
  }

  /** An accepted join: the socket is recorded under the trimmed name, it
      alone gets the whole history, then every connected socket, itself
      included, hears of the arrival. */
  lemma JoinObserved(w: World, sid: SocketId, userName: Option<string>, clock: Clock)
    requires Inv(w) && sid in w.hub.connected && !Text.Blank(userName)
    ensures var r := Step(w, sid, Join(userName), clock);
            var name := Text.Trim(userName.value);
            && Inv(r.world)
            && r.world.hub == w.hub
            && GetUser(r.world.svc, sid) == Some(ChatUser(sid, name))
            && (forall s | s != sid :: GetUser(r.world.svc, s) == GetUser(w.svc, s))
            && r.world.svc.messages == w.svc.messages
            && r.deliveries == [ Delivery({sid}, HistoryEvent(w.svc.messages)),
                        Delivery(w.hub.connected, JoinedEvent(name, clock.now)) ]
            && sid in r.deliveries[1].recipients
  {
    var reaction := HandleJoinRoom(w.svc, sid, userName, clock.now);
    HandleIsJoin(w.svc, sid, userName, clock);
    StepHandled(w, sid, Join(userName), clock);
    JoinPerformed(w, sid, userName, clock);
    Recorded(w, sid, reaction.svc);
  }

  /** A message with a missing or blank body is refused privately, before
      membership is looked at. */
  lemma SendBlankRejected(w: World, sid: SocketId, message: Option<string>, clock: Clock)
    requires Text.Blank(message)
    ensures Step(w, sid, Send(message), clock) == Outcome(w, [Delivery({sid}, ErrorEvent(EMPTY_MESSAGE))])
  {
    RejectionIsPrivate(w, sid, Send(message), clock, EMPTY_MESSAGE);
  }

  /** A message from a socket that has not joined is refused privately. */
  lemma SendUnjoinedRejected(w: World, sid: SocketId, message: Option<string>, clock: Clock)
    requires !Text.Blank(message) && GetUser(w.svc, sid).None?
    ensures Step(w, sid, Send(message), clock) == Outcome(w, [Delivery({sid}, ErrorEvent(NOT_JOINED))])
  {
    RejectionIsPrivate(w, sid, Send(message), clock, NOT_JOINED);
  }

  /** An accepted message reaches every connected socket, sender included,
      and is the newest entry of the history. */
  lemma SendObserved(w: World, sid: SocketId, message: Option<string>, clock: Clock)
    requires Inv(w) && !Text.Blank(message) && GetUser(w.svc, sid).Some?
    ensures var r := Step(w, sid, Send(message), clock);
            var user := GetUser(w.svc, sid).value;
            var msg := ChatMessage(clock.messageId, sid, user.name, Text.Trim(message.value), clock.now);
            && Inv(r.world)
            && r.world.hub == w.hub
            && r.world.svc.users == w.svc.users
            && r.world.svc.messages == History.Push(w.svc.messages, msg, MAX_MESSAGES)
            && r.deliveries == [Delivery(w.hub.connected, MessageEvent(msg.id, msg.userName, msg.message, msg.timestamp))]
            && sid in r.deliveries[0].recipients
  {
    var user := GetUser(w.svc, sid).value;
    var msg := ChatMessage(clock.messageId, sid, user.name, Text.Trim(message.value), clock.now);
    var reaction := HandleSendMessage(w.svc, sid, message, clock);
    HandleIsSend(w.svc, sid, message, clock);
    StepHandled(w, sid, Send(message), clock);
    ReplayOneEmit(w.hub, sid, ToAll, Announce(msg));
    assert Inv(World(reaction.svc, w.hub)) by {
      assert forall s :: GetUser(reaction.svc, s) == GetUser(w.svc, s);
    }
  }

  /** Every admissible event keeps the invariant. */
  lemma StepKeepsInv(w: World, sid: SocketId, cmd: Command, clock: Clock)
    requires Inv(w) && Admissible(w, sid, cmd)
    ensures Inv(Step(w, sid, cmd, clock).world)
  {
    match cmd
    case Connect =>
    case Disconnect =>
      DisconnectObserved(w, sid, clock);
    case Join(userName) =>
      if Text.Blank(userName) {
        JoinBlankRejected(w, sid, userName, clock);
      } else {
        JoinObserved(w, sid, userName, clock);
      }
    case Send(message) =>
      if Text.Blank(message) {
        SendBlankRejected(w, sid, message, clock);
      } else if GetUser(w.svc, sid).None? {
        SendUnjoinedRejected(w, sid, message, clock);
      } else {
        SendObserved(w, sid, message, clock);
      }
  }
}

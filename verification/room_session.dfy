/** The multi-room gateway running on the transport: a `World` is the
    registry plus the Socket.IO hub, and `Step` handles one inbound event
    from one socket, performs the handler's effects in order and reports
    who received what. */
module RoomSession {
  import opened Wrappers
  import opened Transport
  import opened RoomTypes
  import opened RoomRegistry
  import opened RoomGateway
  import Text

  datatype World = World(reg: Registry, hub: Hub)

  /** The world after an event, and what the sockets observed, in order. */
  datatype Outcome = Outcome(world: World, deliveries: seq<Delivery<Event>>)

  /** Server start: an empty registry and no connections. */
  function Start(): World {
    World(Init(), Idle())
  }

  /** The socket is recorded in `room`. */
  predicate InRoom(reg: Registry, sid: SocketId, room: Room) {
    GetUser(reg, sid).Some? && GetUser(reg, sid).value.currentRoom == room
  }

  /** What the transport guarantees of the events it delivers: a connection
      id is fresh when it connects, and every other event comes from a
      connected socket. */
  predicate Admissible(w: World, sid: SocketId, cmd: Command) {
    if cmd.Connect? then sid !in w.hub.connected else sid in w.hub.connected
  }

  /** The gateway's group memberships mirror the registry: a socket with a
      record is connected and belongs to exactly the group of its current
      room; a socket without one belongs to no group. */
  ghost predicate Inv(w: World) {
    && Valid(w.reg)
    && (forall s | GetUser(w.reg, s).Some? :: s in w.hub.connected)
    && (forall m | m in w.hub.groups ::
          GetUser(w.reg, m.socket).Some? && m.group == Name(GetUser(w.reg, m.socket).value.currentRoom))
    && (forall s | GetUser(w.reg, s).Some? :: Membership(s, Name(GetUser(w.reg, s).value.currentRoom)) in w.hub.groups)
  }

  /** One inbound event from socket `sid`. Socket.IO registers a connection
      before the connect handler and drops a socket from every group before
      the disconnect handler. */
  function Step(w: World, sid: SocketId, cmd: Command, clock: Clock): (r: Outcome)
    ensures r.world.hub.connected == if cmd.Connect? then w.hub.connected + {sid}
                                 else if cmd.Disconnect? then w.hub.connected - {sid}
                                 else w.hub.connected
  {
    var hub := match cmd
      case Connect => Transport.Connect(w.hub, sid)
      case Disconnect => Transport.Disconnect(w.hub, sid)
      case _ => w.hub;
    var reaction := Handle(w.reg, sid, cmd, clock);
    var replayed := Replay(hub, sid, reaction.effects);
    Outcome(World(reaction.reg, replayed.hub), replayed.deliveries)
  }

  /** A handler's reaction performed on the world's hub. */
  function Perform(w: World, sid: SocketId, reaction: Reaction): Outcome {
    var rp := Replay(w.hub, sid, reaction.effects);
    Outcome(World(reaction.reg, rp.hub), rp.deliveries)
  }

  lemma StartInv()
    ensures Inv(Start())
  {
  }

  /** Under the invariant, a room's group is exactly the sockets recorded in
      that room, so `server.to(room)` reaches precisely the room. */
  lemma GroupIsRoom(w: World, room: Room)
    requires Inv(w)
    ensures forall s :: s in Members(w.hub.groups, Name(room)) <==> InRoom(w.reg, s, room)
  {
    RoomTypes.AvailableRoomsExact();
  }

  /** The socket's memberships under the invariant: the group of its room if
      it has joined, none otherwise. */
  lemma OwnGroups(w: World, sid: SocketId, g: string)
    requires Inv(w)
    ensures Membership(sid, g) in w.hub.groups <==> GetUser(w.reg, sid).Some? && g == Name(GetUser(w.reg, sid).value.currentRoom)
  {
  }

  /** The invariant survives any change that moves only socket `sid`, into
      `room`, both in the registry and in the groups. */
  lemma Relocated(w: World, w': World, sid: SocketId, room: Room)
    requires Inv(w) && Valid(w'.reg)
    requires sid in w.hub.connected && w'.hub.connected == w.hub.connected
    requires InRoom(w'.reg, sid, room)
    requires forall s | s != sid :: GetUser(w'.reg, s) == GetUser(w.reg, s)
    requires forall m: Membership | m.socket != sid :: m in w'.hub.groups <==> m in w.hub.groups
    requires forall g :: Membership(sid, g) in w'.hub.groups <==> g == Name(room)
    ensures Inv(w')
  {
    forall m | m in w'.hub.groups
      ensures GetUser(w'.reg, m.socket).Some? && m.group == Name(GetUser(w'.reg, m.socket).value.currentRoom)
    {
      if m.socket == sid {
        assert Membership(sid, m.group) == m;
      }
    }
  }

  /** The old room's side of a move, performed: the requester leaves the
      group first, so neither emission reaches it. */
  lemma ReplayLeaveSide(hub: Hub, sid: SocketId, reg: Registry, user: RoomUser, now: int)
    ensures var g := Name(user.currentRoom);
            var hub' := hub.(groups := hub.groups - {Membership(sid, g)});
            Replay(hub, sid, LeaveSide(reg, user, now))
              == Replayed(hub', [ Delivery(Members(hub'.groups, g), LeftEvent(user.userName, user.currentRoom, now)),
                                  Delivery(Members(hub'.groups, g), BroadcastRoomUsersUpdate(reg, user.currentRoom).event) ])
  {
    var g := Name(user.currentRoom);
    var hub' := hub.(groups := hub.groups - {Membership(sid, g)});
    var e1: Effect<Event> := Emit(ToGroup(g), LeftEvent(user.userName, user.currentRoom, now));
    var e2 := BroadcastRoomUsersUpdate(reg, user.currentRoom);
    assert LeaveSide(reg, user, now) == [LeaveGroup(g)] + ([e1] + ([e2] + []));
    ReplayLeaveFirst(hub, sid, g, [e1] + ([e2] + []));
    ReplayEmitFirst(hub', sid, e1.target, e1.event, [e2] + []);
    ReplayEmitFirst(hub', sid, e2.target, e2.event, []);
  }

  /** The new room's side, performed: the requester joins the group first,
      so it receives the arrival notice and the member list too. */
  lemma ReplayEnterSide(hub: Hub, sid: SocketId, reg: Registry, room: Room, name: string, now: int)
    ensures var g := Name(room);
            var hub' := hub.(groups := hub.groups + {Membership(sid, g)});
            Replay(hub, sid, EnterSide(reg, room, name, now))
              == Replayed(hub', [ Delivery({sid}, HistoryEvent(room, GetRoomMessages(reg, room, None))),
                                  Delivery(Members(hub'.groups, g), JoinedEvent(name, room, now)),
                                  Delivery(Members(hub'.groups, g), BroadcastRoomUsersUpdate(reg, room).event) ])
  {
    var g := Name(room);
    var hub' := hub.(groups := hub.groups + {Membership(sid, g)});
    var e1: Effect<Event> := Emit(ToClient, HistoryEvent(room, GetRoomMessages(reg, room, None)));
    var e2: Effect<Event> := Emit(ToGroup(g), JoinedEvent(name, room, now));
    var e3 := BroadcastRoomUsersUpdate(reg, room);
    assert EnterSide(reg, room, name, now) == [JoinGroup(g)] + ([e1] + ([e2] + ([e3] + [])));
    ReplayJoinFirst(hub, sid, g, [e1] + ([e2] + ([e3] + [])));
    ReplayEmitFirst(hub', sid, e1.target, e1.event, [e2] + ([e3] + []));
    ReplayEmitFirst(hub', sid, e2.target, e2.event, [e3] + []);
    ReplayEmitFirst(hub', sid, e3.target, e3.event, []);
  }

  /** What the sockets observe, in order, when `sid` moves out of
      `user.currentRoom` into `room`, going by `name` there: the old room's
      two notices, the history for the mover, the new room's two notices. */
  ghost predicate MoveObserved(w: World, w': World, ds: seq<Delivery<Event>>, sid: SocketId,
                               user: RoomUser, room: Room, name: string, now: int)
  {
    && |ds| == 5
    && LeftTail(w.reg, ds[..2], sid, user, now)
    && ds[2] == Delivery({sid}, HistoryEvent(room, Messages(w.reg, room)))
    && EnteredTail(w'.reg, ds[3..], sid, room, name, now)
  }

  /** The departure notice and member list of the room `sid` leaves: both
      reach the room's other sockets and not the leaver. The list names
      exactly the users `reg` records in the room; read before the registry
      moves the leaver, it still names the leaver. */
  ghost predicate LeftTail(reg: Registry, ds: seq<Delivery<Event>>, sid: SocketId, user: RoomUser, now: int) {
    var prev := user.currentRoom;
    && |ds| == 2
    && ds[0].event == LeftEvent(user.userName, prev, now)
    && (forall s :: s in ds[0].recipients <==> s != sid && InRoom(reg, s, prev))
    && ds[1].recipients == ds[0].recipients
    && ds[1].event.MembersEvent? && ds[1].event.roomName == prev
    && (forall s | InRoom(reg, s, prev) :: GetUser(reg, s).value.userName in ds[1].event.users)
    && (forall n | n in ds[1].event.users :: exists s :: InRoom(reg, s, prev) && GetUser(reg, s).value.userName == n)
    && user.userName in ds[1].event.users
  }

  /** The two departure notices, sent to the other occupants of the old
      room, are what `LeftTail` describes. */
  lemma LeftObserved(reg: Registry, members: set<SocketId>, ds: seq<Delivery<Event>>, sid: SocketId, user: RoomUser, now: int)
    requires Valid(reg) && GetUser(reg, sid) == Some(user)
    requires forall s :: s in members <==> s != sid && InRoom(reg, s, user.currentRoom)
    requires ds == [ Delivery(members, LeftEvent(user.userName, user.currentRoom, now)),
                     Delivery(members, BroadcastRoomUsersUpdate(reg, user.currentRoom).event) ]
    ensures LeftTail(reg, ds, sid, user, now)
  {
    var prev := user.currentRoom;
    var users := BroadcastRoomUsersUpdate(reg, prev).event.users;
    NamesCoverRoom(reg, prev);
    NamesFromRoom(reg, prev);
    assert ds[1].event.users == users;
    assert user.userName in users by {
      assert InRoom(reg, sid, prev);
    }
    assert forall s | InRoom(reg, s, prev) :: GetUser(reg, s).value.userName in users;
    assert forall n | n in users :: exists s :: InRoom(reg, s, prev) && GetUser(reg, s).value.userName == n;
  }

  /** Leaving the group of one's room leaves the room's other sockets in
      it. */
  lemma OthersRemain(w: World, sid: SocketId, room: Room)
    requires Inv(w)
    ensures forall s :: s in Members(w.hub.groups - {Membership(sid, Name(room))}, Name(room))
                    <==> s != sid && InRoom(w.reg, s, room)
  {
    GroupIsRoom(w, room);
  }

  /** The old room's side of a move, performed on a world satisfying the
      invariant. */
  lemma LeaveReplay(w: World, sid: SocketId, user: RoomUser, now: int)
    requires Inv(w) && GetUser(w.reg, sid) == Some(user)
    ensures var rp := Replay(w.hub, sid, LeaveSide(w.reg, user, now));
            && rp.hub == w.hub.(groups := w.hub.groups - {Membership(sid, Name(user.currentRoom))})
            && LeftTail(w.reg, rp.deliveries, sid, user, now)
  {
    ReplayLeaveSide(w.hub, sid, w.reg, user, now);
    OthersRemain(w, sid, user.currentRoom);
    var members := Members(w.hub.groups - {Membership(sid, Name(user.currentRoom))}, Name(user.currentRoom));
    LeftObserved(w.reg, members, Replay(w.hub, sid, LeaveSide(w.reg, user, now)).deliveries, sid, user, now);
  }

  /** The arrival notice and member list of `room` after `sid` entered it
      as `name`: both reach exactly the sockets recorded in `room` by
      `reg'`, and the list names exactly the users recorded there, the
      newcomer among them. */
  ghost predicate EnteredTail(reg': Registry, ds: seq<Delivery<Event>>, sid: SocketId, room: Room, name: string, now: int) {
    && |ds| == 2
    && ds[0].event == JoinedEvent(name, room, now)
    && (forall s :: s in ds[0].recipients <==> InRoom(reg', s, room))
    && sid in ds[0].recipients
    && ds[1].recipients == ds[0].recipients
    && ds[1].event.MembersEvent? && ds[1].event.roomName == room
    && (forall s | InRoom(reg', s, room) :: GetUser(reg', s).value.userName in ds[1].event.users)
    && (forall n | n in ds[1].event.users :: exists s :: InRoom(reg', s, room) && GetUser(reg', s).value.userName == n)
    && name in ds[1].event.users
  }

  /** The two arrival notices, sent to the sockets of the new room, are
      what `EnteredTail` describes. */
  lemma EnteredObserved(reg': Registry, members: set<SocketId>, ds: seq<Delivery<Event>>, sid: SocketId, room: Room, name: string, now: int)
    requires Valid(reg') && GetUser(reg', sid) == Some(RoomUser(sid, name, room))
    requires forall s :: s in members <==> InRoom(reg', s, room)
    requires ds == [ Delivery(members, JoinedEvent(name, room, now)),
                     Delivery(members, BroadcastRoomUsersUpdate(reg', room).event) ]
    ensures EnteredTail(reg', ds, sid, room, name, now)
  {
    var users := BroadcastRoomUsersUpdate(reg', room).event.users;
    NamesCoverRoom(reg', room);
    NamesFromRoom(reg', room);
    assert ds[1].event.users == users;
    assert name in users by {
      assert InRoom(reg', sid, room);
    }
    assert forall s | InRoom(reg', s, room) :: GetUser(reg', s).value.userName in users;
    assert forall n | n in users :: exists s :: InRoom(reg', s, room) && GetUser(reg', s).value.userName == n;
  }

  /** A move, performed on any hub: the requester ends up in the new group
      only, and the five deliveries split as the leave side's two, the
      history, and the enter side's two. */
  lemma MoveShape(hub: Hub, sid: SocketId, reg: Registry, reg': Registry, user: RoomUser, room: Room, name: string, now: int)
    ensures var hub1 := hub.(groups := hub.groups - {Membership(sid, Name(user.currentRoom))});
            var hub2 := hub1.(groups := hub1.groups + {Membership(sid, Name(room))});
            var rp := Replay(hub, sid, LeaveSide(reg, user, now) + EnterSide(reg', room, name, now));
            && rp.hub == hub2
            && |rp.deliveries| == 5
            && rp.deliveries[..2] == Replay(hub, sid, LeaveSide(reg, user, now)).deliveries
            && rp.deliveries[2] == Delivery({sid}, HistoryEvent(room, GetRoomMessages(reg', room, None)))
            && rp.deliveries[3..] == [ Delivery(Members(hub2.groups, Name(room)), JoinedEvent(name, room, now)),
                                       Delivery(Members(hub2.groups, Name(room)), BroadcastRoomUsersUpdate(reg', room).event) ]
  {
    var leave := LeaveSide(reg, user, now);
    var enter := EnterSide(reg', room, name, now);
    var r1 := Replay(hub, sid, leave);
    var r2 := Replay(r1.hub, sid, enter);
    ReplayAppend(hub, sid, leave, enter);
    ReplayLeaveSide(hub, sid, reg, user, now);
    ReplayEnterSide(r1.hub, sid, reg', room, name, now);
    assert (r1.deliveries + r2.deliveries)[..2] == r1.deliveries;
    assert (r1.deliveries + r2.deliveries)[3..] == r2.deliveries[1..];
  }

  /** Moving the requester's membership from its old room's group to the
      new room's group, with the registry moved alike, keeps the groups in
      step with the registry. */
  lemma Regrouped(w: World, sid: SocketId, reg': Registry, user: RoomUser, room: Room)
    requires Inv(w) && sid in w.hub.connected
    requires GetUser(w.reg, sid) == Some(user)
    requires Valid(reg') && InRoom(reg', sid, room)
    requires forall s | s != sid :: GetUser(reg', s) == GetUser(w.reg, s)
    ensures var hub1 := w.hub.(groups := w.hub.groups - {Membership(sid, Name(user.currentRoom))});
            Inv(World(reg', hub1.(groups := hub1.groups + {Membership(sid, Name(room))})))
  {
    var hub1 := w.hub.(groups := w.hub.groups - {Membership(sid, Name(user.currentRoom))});
    var hub2 := hub1.(groups := hub1.groups + {Membership(sid, Name(room))});
    forall g ensures Membership(sid, g) in hub2.groups <==> g == Name(room) {
      OwnGroups(w, sid, g);
    }
    Relocated(w, World(reg', hub2), sid, room);
  }

  /** A move keeps the groups in step with the registry. */
  lemma MoveKeepsInv(w: World, sid: SocketId, reg': Registry, effects: seq<Effect<Event>>, user: RoomUser, room: Room, name: string, now: int)
    requires Inv(w) && sid in w.hub.connected
    requires effects == LeaveSide(w.reg, user, now) + EnterSide(reg', room, name, now)
    requires GetUser(w.reg, sid) == Some(user) && user.currentRoom != room
    requires Valid(reg') && GetUser(reg', sid) == Some(RoomUser(sid, name, room))
    requires forall s | s != sid :: GetUser(reg', s) == GetUser(w.reg, s)
    ensures Inv(World(reg', Replay(w.hub, sid, effects).hub))
  {
    MoveShape(w.hub, sid, w.reg, reg', user, room, name, now);
    Regrouped(w, sid, reg', user, room);
  }

  /** A move, performed: the leave side, then the enter side. */
  lemma MoveReplay(w: World, sid: SocketId, reaction: Reaction, user: RoomUser, room: Room, name: string, now: int)
    requires Inv(w) && sid in w.hub.connected
    requires reaction.effects == LeaveSide(w.reg, user, now) + EnterSide(reaction.reg, room, name, now)
    requires GetUser(w.reg, sid) == Some(user) && user.currentRoom != room
    requires Valid(reaction.reg) && GetUser(reaction.reg, sid) == Some(RoomUser(sid, name, room))
    requires forall s | s != sid :: GetUser(reaction.reg, s) == GetUser(w.reg, s)
    requires forall ro: Room :: Messages(reaction.reg, ro) == Messages(w.reg, ro)
    ensures var r := Perform(w, sid, reaction);
            Inv(r.world) && MoveObserved(w, r.world, r.deliveries, sid, user, room, name, now)
  {
    var reg' := reaction.reg;
    var rp := Replay(w.hub, sid, reaction.effects);
    var w' := World(reg', rp.hub);
    MoveKeepsInv(w, sid, reg', reaction.effects, user, room, name, now);
    MoveShape(w.hub, sid, w.reg, reg', user, room, name, now);
    LeaveReplay(w, sid, user, now);
    GroupIsRoom(w', room);
    EnteredObserved(reg', Members(rp.hub.groups, Name(room)), rp.deliveries[3..], sid, room, name, now);
  }

  /** Adding the requester's membership of `room`'s group, with the registry
      placing it in `room`, keeps the groups in step with the registry when
      it was in no other room. */
  lemma Grouped(w: World, sid: SocketId, reg': Registry, room: Room)
    requires Inv(w) && sid in w.hub.connected
    requires GetUser(w.reg, sid).None? || GetUser(w.reg, sid).value.currentRoom == room
    requires Valid(reg') && InRoom(reg', sid, room)
    requires forall s | s != sid :: GetUser(reg', s) == GetUser(w.reg, s)
    ensures Inv(World(reg', w.hub.(groups := w.hub.groups + {Membership(sid, Name(room))})))
  {
    var hub1 := w.hub.(groups := w.hub.groups + {Membership(sid, Name(room))});
    forall g ensures Membership(sid, g) in hub1.groups <==> g == Name(room) {
      OwnGroups(w, sid, g);
    }
    Relocated(w, World(reg', hub1), sid, room);
  }

  /** A join or re-join that moves nobody out of another room, performed. */
  lemma EnterReplay(w: World, sid: SocketId, reaction: Reaction, room: Room, name: string, now: int)
    requires Inv(w) && sid in w.hub.connected
    requires reaction.effects == EnterSide(reaction.reg, room, name, now)
    requires GetUser(w.reg, sid).None? || GetUser(w.reg, sid).value.currentRoom == room
    requires Valid(reaction.reg) && GetUser(reaction.reg, sid) == Some(RoomUser(sid, name, room))
    requires forall s | s != sid :: GetUser(reaction.reg, s) == GetUser(w.reg, s)
    ensures var r := Perform(w, sid, reaction);
            && Inv(r.world)
            && |r.deliveries| == 3
            && r.deliveries[0] == Delivery({sid}, HistoryEvent(room, Messages(reaction.reg, room)))
            && EnteredTail(r.world.reg, r.deliveries[1..], sid, room, name, now)
  {
    var reg' := reaction.reg;
    ReplayEnterSide(w.hub, sid, reg', room, name, now);
    var hub1 := w.hub.(groups := w.hub.groups + {Membership(sid, Name(room))});
    var w' := World(reg', hub1);
    Grouped(w, sid, reg', room);
    GroupIsRoom(w', room);
    EnteredObserved(reg', Members(hub1.groups, Name(room)), Replay(w.hub, sid, reaction.effects).deliveries[1..], sid, room, name, now);
  }

  /** A room command leaves the connection set alone: the step is the
      handler's reaction, performed on the current hub. */
  lemma StepHandled(w: World, sid: SocketId, cmd: Command, clock: Clock)
    requires cmd.Join? || cmd.Switch? || cmd.Send?
    ensures Step(w, sid, cmd, clock) == Perform(w, sid, Handle(w.reg, sid, cmd, clock))
  {
  }

  /** Connecting registers the socket with the transport and does nothing
      else: no record, no group, no emission. */
  lemma ConnectIsQuiet(w: World, sid: SocketId, clock: Clock)
    ensures Step(w, sid, Connect, clock) == Outcome(World(w.reg, Transport.Connect(w.hub, sid)), [])
  {
  }

  /** Every rejected command reaches the requester alone, as one `'error'`,
      and changes neither the registry nor the groups. */
  lemma RejectionIsPrivate(w: World, sid: SocketId, cmd: Command, clock: Clock, text: string)
    requires cmd.Join? || cmd.Switch? || cmd.Send?
    requires Handle(w.reg, sid, cmd, clock) == Reject(w.reg, text)
    ensures Step(w, sid, cmd, clock) == Outcome(w, [Delivery({sid}, ErrorEvent(text))])
  {
    var e: Effect<Event> := Emit(ToClient, ErrorEvent(text));
    StepHandled(w, sid, cmd, clock);
    assert Handle(w.reg, sid, cmd, clock).effects == [e] + [];
    ReplayEmitFirst(w.hub, sid, ToClient, ErrorEvent(text), []);
    assert Replay(w.hub, sid, [e] + []) == Replayed(w.hub, [Delivery({sid}, ErrorEvent(text))]);
  }

  /** Switching to the room one is already in is silent and changes nothing. */
  lemma SwitchToSameRoomIsQuiet(w: World, sid: SocketId, newRoomName: Option<string>, clock: Clock)
    requires ParseRoom(newRoomName).Some? && InRoom(w.reg, sid, ParseRoom(newRoomName).value)
    ensures Step(w, sid, Switch(newRoomName), clock) == Outcome(w, [])
  {
    StepHandled(w, sid, Switch(newRoomName), clock);
  }

  /** A `join_room` is handled by `handleJoinRoom`. */
  lemma HandleIsJoin(reg: Registry, sid: SocketId, userName: Option<string>, roomName: Option<string>, clock: Clock)
    ensures Handle(reg, sid, Join(userName, roomName), clock) == HandleJoinRoom(reg, sid, userName, roomName, clock.now)
  {
    var cmd := Join(userName, roomName);
    assert cmd.userName == userName && cmd.roomName == roomName;
  }

  /** A `switch_room` is handled by `handleSwitchRoom`. */
  lemma HandleIsSwitch(reg: Registry, sid: SocketId, newRoomName: Option<string>, clock: Clock)
    ensures Handle(reg, sid, Switch(newRoomName), clock) == HandleSwitchRoom(reg, sid, newRoomName, clock.now)
  {
    var cmd := Switch(newRoomName);
    assert cmd.newRoomName == newRoomName;
  }

  /** A join from another room: the old room is told first (and its list
      still names the leaver), then the new room. */
  lemma JoinFromOtherRoom(w: World, sid: SocketId, userName: Option<string>, roomName: Option<string>, clock: Clock)
    requires Inv(w) && sid in w.hub.connected
    requires !Text.Blank(userName) && ParseRoom(roomName).Some? && Moving(w.reg, sid, ParseRoom(roomName).value)
    ensures var r := Step(w, sid, Join(userName, roomName), clock);
            && Inv(r.world)
            && MoveObserved(w, r.world, r.deliveries, sid, GetUser(w.reg, sid).value, ParseRoom(roomName).value, Text.Trim(userName.value), clock.now)
  {
    var reaction := HandleJoinRoom(w.reg, sid, userName, roomName, clock.now);
    HandleIsJoin(w.reg, sid, userName, roomName, clock);
    StepHandled(w, sid, Join(userName, roomName), clock);
    MoveReplay(w, sid, reaction, GetUser(w.reg, sid).value, ParseRoom(roomName).value, Text.Trim(userName.value), clock.now);
  }

  /** A first join, or a re-join of the current room: no leave notices; the
      requester gets the history and the room (requester included) the
      arrival notice and member list. */
  lemma JoinWithoutMove(w: World, sid: SocketId, userName: Option<string>, roomName: Option<string>, clock: Clock)
    requires Inv(w) && sid in w.hub.connected
    requires !Text.Blank(userName) && ParseRoom(roomName).Some? && !Moving(w.reg, sid, ParseRoom(roomName).value)
    ensures var r := Step(w, sid, Join(userName, roomName), clock);
            var room := ParseRoom(roomName).value;
            && Inv(r.world)
            && InRoom(r.world.reg, sid, room)
            && |r.deliveries| == 3
            && r.deliveries[0] == Delivery({sid}, HistoryEvent(room, Messages(w.reg, room)))
            && EnteredTail(r.world.reg, r.deliveries[1..], sid, room, Text.Trim(userName.value), clock.now)
  {
    var room := ParseRoom(roomName).value;
    var reaction := HandleJoinRoom(w.reg, sid, userName, roomName, clock.now);
    HandleIsJoin(w.reg, sid, userName, roomName, clock);
    StepHandled(w, sid, Join(userName, roomName), clock);
    assert reaction.effects == EnterSide(reaction.reg, room, Text.Trim(userName.value), clock.now) by {
      assert [] + EnterSide(reaction.reg, room, Text.Trim(userName.value), clock.now)
          == EnterSide(reaction.reg, room, Text.Trim(userName.value), clock.now);
    }
    EnterReplay(w, sid, reaction, room, Text.Trim(userName.value), clock.now);
  }

  /** A switch to another room: the same leave-then-enter sequence as a
      join, under the name already on record. */
  lemma SwitchToOtherRoom(w: World, sid: SocketId, newRoomName: Option<string>, clock: Clock)
    requires Inv(w) && sid in w.hub.connected
    requires ParseRoom(newRoomName).Some? && Moving(w.reg, sid, ParseRoom(newRoomName).value)
    ensures var r := Step(w, sid, Switch(newRoomName), clock);
            var user := GetUser(w.reg, sid).value;
            && Inv(r.world)
            && MoveObserved(w, r.world, r.deliveries, sid, user, ParseRoom(newRoomName).value, user.userName, clock.now)
  {
    var room := ParseRoom(newRoomName).value;
    var user := GetUser(w.reg, sid).value;
    assert user.(currentRoom := room) == RoomUser(sid, user.userName, room);
    var reaction := HandleSwitchRoom(w.reg, sid, newRoomName, clock.now);
    HandleIsSwitch(w.reg, sid, newRoomName, clock);
    StepHandled(w, sid, Switch(newRoomName), clock);
    MoveReplay(w, sid, reaction, user, room, user.userName, clock.now);
  }

  /** A `send_message` is handled by `handleSendMessage`. */
  lemma HandleIsSend(reg: Registry, sid: SocketId, message: Option<string>, roomName: Option<string>, clock: Clock)
    ensures Handle(reg, sid, Send(message, roomName), clock) == HandleSendMessage(reg, sid, message, roomName, clock)
  {
    var cmd := Send(message, roomName);
    assert cmd.Send? && cmd.message == message && cmd.roomName == roomName;
    assert Handle(reg, sid, cmd, clock) == HandleSendMessage(reg, sid, cmd.message, cmd.roomName, clock);
  }

  /** The one effect of an accepted message. */
  lemma SendEffects(reg: Registry, sid: SocketId, message: Option<string>, roomName: Option<string>, clock: Clock)
    requires !Text.Blank(message) && ParseRoom(roomName).Some? && InRoom(reg, sid, ParseRoom(roomName).value)
    ensures var room := ParseRoom(roomName).value;
            var msg := RoomMessage(clock.messageId, room, GetUser(reg, sid).value.userName, Text.Trim(message.value), clock.now);
            HandleSendMessage(reg, sid, message, roomName, clock).effects == [Emit(ToGroup(Name(room)), MessageEvent(msg))]
  {
  }

  /** An accepted message, performed: the registry is the handler's, the
      groups are untouched, and the room's group gets the stored message. */
  lemma SendStep(w: World, sid: SocketId, message: Option<string>, roomName: Option<string>, clock: Clock)
    requires !Text.Blank(message) && ParseRoom(roomName).Some? && InRoom(w.reg, sid, ParseRoom(roomName).value)
    ensures var room := ParseRoom(roomName).value;
            var msg := RoomMessage(clock.messageId, room, GetUser(w.reg, sid).value.userName, Text.Trim(message.value), clock.now);
            var reg' := HandleSendMessage(w.reg, sid, message, roomName, clock).reg;
            Step(w, sid, Send(message, roomName), clock) == Outcome(World(reg', w.hub), [Delivery(Members(w.hub.groups, Name(room)), MessageEvent(msg))])
  {
    var room := ParseRoom(roomName).value;
    var msg := RoomMessage(clock.messageId, room, GetUser(w.reg, sid).value.userName, Text.Trim(message.value), clock.now);
    SendEffects(w.reg, sid, message, roomName, clock);
    HandleIsSend(w.reg, sid, message, roomName, clock);
    ReplayOneEmit(w.hub, sid, ToGroup(Name(room)), MessageEvent(msg));
    StepHandled(w, sid, Send(message, roomName), clock);
  }

  /** An accepted message reaches exactly the sockets in its room, sender
      included, and is the newest entry of that room's history. */
  lemma SendReachesRoom(w: World, sid: SocketId, message: Option<string>, roomName: Option<string>, clock: Clock)
    requires Inv(w)
    requires !Text.Blank(message) && ParseRoom(roomName).Some? && InRoom(w.reg, sid, ParseRoom(roomName).value)
    ensures var r := Step(w, sid, Send(message, roomName), clock);
            var room := ParseRoom(roomName).value;
            var msg := RoomMessage(clock.messageId, room, GetUser(w.reg, sid).value.userName, Text.Trim(message.value), clock.now);
            && Inv(r.world)
            && r.world.hub == w.hub
            && r.deliveries == [Delivery(Members(w.hub.groups, Name(room)), MessageEvent(msg))]
            && (forall s :: s in Members(w.hub.groups, Name(room)) <==> InRoom(w.reg, s, room))
            && sid in Members(w.hub.groups, Name(room))
            && Messages(r.world.reg, room) == History.Push(Messages(w.reg, room), msg, MAX_MESSAGES_PER_ROOM)
  {
    var reg' := HandleSendMessage(w.reg, sid, message, roomName, clock).reg;
    SendStep(w, sid, message, roomName, clock);
    GroupIsRoom(w, ParseRoom(roomName).value);
    assert Inv(World(reg', w.hub)) by {
      assert forall s :: GetUser(reg', s) == GetUser(w.reg, s);
    }
  }

  /** A disconnect is the transport dropping the socket, then the
      handler's reaction performed on what is left. */
  lemma DisconnectStep(w: World, sid: SocketId, clock: Clock)
    ensures Step(w, sid, Disconnect, clock)
         == Perform(World(w.reg, Transport.Disconnect(w.hub, sid)), sid, HandleDisconnect(w.reg, sid, clock.now))
  {
  }

  /** Forgetting a socket in the registry and in the transport together
      keeps the groups in step with the registry. */
  lemma Forgotten(w: World, sid: SocketId, now: int)
    requires Inv(w)
    ensures Inv(World(HandleDisconnect(w.reg, sid, now).reg, Transport.Disconnect(w.hub, sid)))
  {
    var hub := Transport.Disconnect(w.hub, sid);
    var reg' := HandleDisconnect(w.reg, sid, now).reg;
    forall m | m in hub.groups
      ensures GetUser(reg', m.socket).Some? && m.group == Name(GetUser(reg', m.socket).value.currentRoom)
    {
    }
  }

  /** The two notices of a departure, performed: emissions only, so the
      groups stay as they are and both reach the room's group of the
      moment. */
  lemma GoneReplay(hub: Hub, sid: SocketId, reg': Registry, effects: seq<Effect<Event>>, u: RoomUser, now: int)
    requires effects == [ Emit(ToGroup(Name(u.currentRoom)), LeftEvent(u.userName, u.currentRoom, now)),
                          BroadcastRoomUsersUpdate(reg', u.currentRoom) ]
    ensures Replay(hub, sid, effects)
         == Replayed(hub, [ Delivery(Members(hub.groups, Name(u.currentRoom)), LeftEvent(u.userName, u.currentRoom, now)),
                            Delivery(Members(hub.groups, Name(u.currentRoom)), BroadcastRoomUsersUpdate(reg', u.currentRoom).event) ])
  {
    var e1: Effect<Event> := Emit(ToGroup(Name(u.currentRoom)), LeftEvent(u.userName, u.currentRoom, now));
    var e2 := BroadcastRoomUsersUpdate(reg', u.currentRoom);
    assert effects == [e1] + ([e2] + []);
    ReplayEmitFirst(hub, sid, e1.target, e1.event, [e2] + []);
    ReplayEmitFirst(hub, sid, e2.target, e2.event, []);
  }

  /** After a socket is forgotten, a room holds exactly the other sockets
      it held before. */
  lemma Remaining(reg: Registry, reg': Registry, sid: SocketId, room: Room)
    requires GetUser(reg', sid) == None
    requires forall s | s != sid :: GetUser(reg', s) == GetUser(reg, s)
    ensures forall s :: InRoom(reg', s, room) <==> s != sid && InRoom(reg, s, room)
  {
  }

  /** Disconnecting forgets the socket. One that had joined is announced
      as gone to the rest of its last room, which then gets a member list
      without it; one that never joined causes no emission. */
  lemma DisconnectObserved(w: World, sid: SocketId, clock: Clock)
    requires Inv(w) && sid in w.hub.connected
    ensures var r := Step(w, sid, Disconnect, clock);
            && Inv(r.world)
            && GetUser(r.world.reg, sid).None?
            && sid !in r.world.hub.connected
            && (GetUser(w.reg, sid).None? ==> r.deliveries == [] && r.world.reg == w.reg)
            && (GetUser(w.reg, sid).Some? ==>
                  var u := GetUser(w.reg, sid).value;
                  && |r.deliveries| == 2
                  && r.deliveries[0].event == LeftEvent(u.userName, u.currentRoom, clock.now)
                  && (forall s :: s in r.deliveries[0].recipients <==> s != sid && InRoom(w.reg, s, u.currentRoom))
                  && r.deliveries[1].recipients == r.deliveries[0].recipients
                  && r.deliveries[1].event.MembersEvent? && r.deliveries[1].event.roomName == u.currentRoom
                  // the list names every remaining occupant and nobody from elsewhere
                  && (forall s | s != sid && InRoom(w.reg, s, u.currentRoom) ::
                        GetUser(w.reg, s).value.userName in r.deliveries[1].event.users)
                  && (forall n | n in r.deliveries[1].event.users ::
                        exists s :: s != sid && InRoom(w.reg, s, u.currentRoom) && GetUser(w.reg, s).value.userName == n))
  {
    var hub := Transport.Disconnect(w.hub, sid);
    var reaction := HandleDisconnect(w.reg, sid, clock.now);
    var w' := World(reaction.reg, hub);
    DisconnectStep(w, sid, clock);
    Forgotten(w, sid, clock.now);
    if GetUser(w.reg, sid).Some? {
      var u := GetUser(w.reg, sid).value;
      GoneReplay(hub, sid, reaction.reg, reaction.effects, u, clock.now);
      GroupIsRoom(w', u.currentRoom);
      Remaining(w.reg, reaction.reg, sid, u.currentRoom);
      NamesCoverRoom(reaction.reg, u.currentRoom);
      NamesFromRoom(reaction.reg, u.currentRoom);
    }
  }

  /** Every admissible event keeps the groups in step with the registry. */
  lemma StepKeepsInv(w: World, sid: SocketId, cmd: Command, clock: Clock)
    requires Inv(w) && Admissible(w, sid, cmd)
    ensures Inv(Step(w, sid, cmd, clock).world)
  {
    match cmd
    case Connect =>
    case Disconnect =>
      DisconnectObserved(w, sid, clock);
    case Join(userName, roomName) =>
      if Text.Blank(userName) {
        RejectionIsPrivate(w, sid, cmd, clock, INVALID_NAME);
      } else if ParseRoom(roomName).None? {
        RejectionIsPrivate(w, sid, cmd, clock, INVALID_ROOM_WITH_LIST);
      } else if Moving(w.reg, sid, ParseRoom(roomName).value) {
        JoinFromOtherRoom(w, sid, userName, roomName, clock);
      } else {
        JoinWithoutMove(w, sid, userName, roomName, clock);
      }
    case Switch(newRoomName) =>
      if ParseRoom(newRoomName).None? {
        RejectionIsPrivate(w, sid, cmd, clock, INVALID_ROOM_WITH_LIST);
      } else if GetUser(w.reg, sid).None? {
        RejectionIsPrivate(w, sid, cmd, clock, NOT_JOINED_ANY);
      } else if Moving(w.reg, sid, ParseRoom(newRoomName).value) {
        SwitchToOtherRoom(w, sid, newRoomName, clock);
      } else {
        SwitchToSameRoomIsQuiet(w, sid, newRoomName, clock);
      }
    case Send(message, roomName) =>
      if Text.Blank(message) {
        RejectionIsPrivate(w, sid, cmd, clock, EMPTY_MESSAGE);
      } else if ParseRoom(roomName).None? {
        RejectionIsPrivate(w, sid, cmd, clock, INVALID_ROOM);
      } else if GetUser(w.reg, sid).None? {
        RejectionIsPrivate(w, sid, cmd, clock, NOT_JOINED);
      } else if Moving(w.reg, sid, ParseRoom(roomName).value) {
        RejectionIsPrivate(w, sid, cmd, clock, NOT_IN_ROOM);
      } else {
        SendReachesRoom(w, sid, message, roomName, clock);
      }
  }
}

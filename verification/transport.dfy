/** The part of Socket.IO the gateways rely on, as a synchronous model:
    the set of connected sockets, named groups (Socket.IO "rooms") joined with
    `client.join` and left with `client.leave`, and the three ways of
    emitting: `client.emit` (the requester only), `server.to(g).emit` (every
    member of group `g`) and `server.emit` (every connected socket).

    A gateway handler produces its effects as an ordered list; `Replay`
    performs them in that order and resolves each emission to the sockets
    that receive it at that moment. */
module Transport {

  type SocketId = string

  datatype Target = ToClient | ToGroup(group: string) | ToAll

  datatype Effect<E> =
    | JoinGroup(group: string)
    | LeaveGroup(group: string)
    | Emit(target: Target, event: E)

  datatype Membership = Membership(socket: SocketId, group: string)

  datatype Hub = Hub(connected: set<SocketId>, groups: set<Membership>)

  datatype Delivery<E> = Delivery(recipients: set<SocketId>, event: E)

  datatype Replayed<E> = Replayed(hub: Hub, deliveries: seq<Delivery<E>>)

  /** A hub with no sockets. */
  function Idle(): (hub: Hub)
    ensures forall s: SocketId :: s !in hub.connected
    ensures forall m: Membership :: m !in hub.groups
  {
    Hub({}, {})
  }

  /** The sockets currently in group `g`. */
  function Members(groups: set<Membership>, g: string): (r: set<SocketId>)
    ensures forall s: SocketId :: s in r <==> Membership(s, g) in groups
  {
    set m | m in groups && m.group == g :: m.socket
  }

  /** Who receives an emission from socket `sid` aimed at `t`. */
  function Recipients(hub: Hub, sid: SocketId, t: Target): set<SocketId> {
    match t
    case ToClient => {sid}
    case ToGroup(g) => Members(hub.groups, g)
    case ToAll => hub.connected
  }

  /** A new connection. */
  function Connect(hub: Hub, sid: SocketId): (r: Hub)
    ensures r.connected == hub.connected + {sid}
    ensures r.groups == hub.groups
  {
    hub.(connected := hub.connected + {sid})
  }

  /** A closed connection: Socket.IO takes the socket out of every group
      before the gateway's disconnect handler runs. */
  function Disconnect(hub: Hub, sid: SocketId): (r: Hub)
    ensures r.connected == hub.connected - {sid}
    ensures forall m: Membership :: m in r.groups <==> m in hub.groups && m.socket != sid
  {
    Hub(hub.connected - {sid}, set m | m in hub.groups && m.socket != sid)
  }

  /** The events of the emissions among `effects`, in order. */
  function Events<E>(effects: seq<Effect<E>>): seq<E> {
    if |effects| == 0 then []
    else if effects[0].Emit? then [effects[0].event] + Events(effects[1..])
    else Events(effects[1..])
  }

  /** Performs `effects` on behalf of socket `sid`, in order. */
  function Replay<E>(hub: Hub, sid: SocketId, effects: seq<Effect<E>>): (r: Replayed<E>)
    // the connected set is the transport's, not the handler's
    ensures r.hub.connected == hub.connected
    // only the requester's own group memberships change
    ensures forall m: Membership | m.socket != sid :: m in r.hub.groups <==> m in hub.groups
    // one delivery per emission, in emission order
    ensures |r.deliveries| == |Events(effects)|
    ensures forall i | 0 <= i < |r.deliveries| :: r.deliveries[i].event == Events(effects)[i]
    decreases |effects|
  {
    if |effects| == 0 then Replayed(hub, [])
    else
      match effects[0]
      case JoinGroup(g) =>
        Replay(hub.(groups := hub.groups + {Membership(sid, g)}), sid, effects[1..])
      case LeaveGroup(g) =>
        Replay(hub.(groups := hub.groups - {Membership(sid, g)}), sid, effects[1..])
      case Emit(t, e) =>
        var rest := Replay(hub, sid, effects[1..]);
        Replayed(rest.hub, [Delivery(Recipients(hub, sid, t), e)] + rest.deliveries)
  }

  /** Replaying an emission first: it reaches the recipients of the moment,
      and the rest is replayed on the same hub. */
  lemma ReplayEmitFirst<E>(hub: Hub, sid: SocketId, t: Target, e: E, rest: seq<Effect<E>>)
    ensures Replay(hub, sid, [Emit(t, e)] + rest)
         == Replayed(Replay(hub, sid, rest).hub, [Delivery(Recipients(hub, sid, t), e)] + Replay(hub, sid, rest).deliveries)
  {
    assert ([Emit(t, e)] + rest)[1..] == rest;
  }

  /** Replaying a lone emission delivers it to the recipients of the
      moment and changes no group. */
  lemma ReplayOneEmit<E>(hub: Hub, sid: SocketId, t: Target, e: E)
    ensures Replay(hub, sid, [Emit(t, e)]) == Replayed(hub, [Delivery(Recipients(hub, sid, t), e)])
  {
    ReplayEmitFirst(hub, sid, t, e, []);
    assert [Emit(t, e)] + [] == [Emit(t, e)];
  }

  /** Replaying a `join` first adds the requester to the group. */
  lemma ReplayJoinFirst<E>(hub: Hub, sid: SocketId, g: string, rest: seq<Effect<E>>)
    ensures Replay(hub, sid, [JoinGroup(g)] + rest)
         == Replay(hub.(groups := hub.groups + {Membership(sid, g)}), sid, rest)
  {
    assert ([JoinGroup(g)] + rest)[1..] == rest;
  }

  /** Replaying a `leave` first takes the requester out of the group. */
  lemma ReplayLeaveFirst<E>(hub: Hub, sid: SocketId, g: string, rest: seq<Effect<E>>)
    ensures Replay(hub, sid, [LeaveGroup(g)] + rest)
         == Replay(hub.(groups := hub.groups - {Membership(sid, g)}), sid, rest)
  {
    assert ([LeaveGroup(g)] + rest)[1..] == rest;
  }

  /** Replaying `a + b` replays `a`, then `b` on the hub `a` leaves. */
  lemma {:induction false} ReplayAppend<E>(hub: Hub, sid: SocketId, a: seq<Effect<E>>, b: seq<Effect<E>>)
    ensures var ra := Replay(hub, sid, a);
            var rb := Replay(ra.hub, sid, b);
            Replay(hub, sid, a + b) == Replayed(rb.hub, ra.deliveries + rb.deliveries)
    decreases |a|
  {
    if |a| == 0 {
      assert a + b == b;
    } else {
      assert (a + b)[0] == a[0];
      assert (a + b)[1..] == a[1..] + b;
      match a[0]
      case JoinGroup(g) =>
        ReplayAppend(hub.(groups := hub.groups + {Membership(sid, g)}), sid, a[1..], b);
      case LeaveGroup(g) =>
        ReplayAppend(hub.(groups := hub.groups - {Membership(sid, g)}), sid, a[1..], b);
      case Emit(t, e) =>
        ReplayAppend(hub, sid, a[1..], b);
        var ra := Replay(hub, sid, a[1..]);
        var rb := Replay(ra.hub, sid, b);
        assert [Delivery(Recipients(hub, sid, t), e)] + ra.deliveries + rb.deliveries
            == [Delivery(Recipients(hub, sid, t), e)] + (ra.deliveries + rb.deliveries);
    }
  }
}

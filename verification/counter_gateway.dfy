/** `CounterGateway` running on the transport: every connection and every
    disconnection updates the counter and announces the new count to every
    connected socket. */
module CounterGateway {
  import opened Transport
  import opened CounterService

  /** The `ONLINE_COUNT_UPDATE` payload. */
  datatype Event = CountUpdate(count: int)

  /** Inbound traffic for one socket: the gateway only hears connections
      and disconnections. */
  datatype Command = Connect | Disconnect

  datatype Reaction = Reaction(counter: Counter, effects: seq<Effect<Event>>)

  /** `handleConnection`. */
  function HandleConnection(c: Counter): (r: Reaction)
    ensures r.counter.onlineCount == c.onlineCount + 1
    ensures r.effects == [Emit(ToAll, CountUpdate(r.counter.onlineCount))]
  {
    var incremented := IncrementCount(c);
    Reaction(incremented.counter, [Emit(ToAll, CountUpdate(incremented.count))])
  }

  /** `handleDisconnect`. */
  function HandleDisconnect(c: Counter): (r: Reaction)
    ensures r.counter == DecrementCount(c).counter
    ensures r.effects == [Emit(ToAll, CountUpdate(r.counter.onlineCount))]
    ensures c.onlineCount >= 0 ==> r.counter.onlineCount >= 0
  {
    var decremented := DecrementCount(c);
    Reaction(decremented.counter, [Emit(ToAll, CountUpdate(decremented.count))])
  }

  function Handle(c: Counter, cmd: Command): Reaction {
    match cmd
    case Connect => HandleConnection(c)
    case Disconnect => HandleDisconnect(c)
  }

  /** The counter after each of `cmds` in turn. */
  function Run(c: Counter, cmds: seq<Command>): Counter
    decreases |cmds|
  {
    if |cmds| == 0 then c else Handle(Run(c, cmds[..|cmds| - 1]), cmds[|cmds| - 1]).counter
  }

  /** How many of `cmds` are `cmd`. */
  function Occurrences(cmds: seq<Command>, cmd: Command): (n: nat)
    ensures n <= |cmds|
    decreases |cmds|
  {
    if |cmds| == 0 then 0
    else Occurrences(cmds[..|cmds| - 1], cmd) + (if cmds[|cmds| - 1] == cmd then 1 else 0)
  }

  /** No prefix of `cmds` has more disconnections than connections. */
  predicate Balanced(cmds: seq<Command>)
    decreases |cmds|
  {
    |cmds| == 0 ||
      (Balanced(cmds[..|cmds| - 1]) && Occurrences(cmds, Disconnect) <= Occurrences(cmds, Connect))
  }

  /** Whatever happens, the count never goes below zero, so no broadcast
      carries a negative count. */
  lemma {:induction false} CountNeverNegative(cmds: seq<Command>)
    ensures Run(Init(), cmds).onlineCount >= 0
    decreases |cmds|
  {
    if |cmds| > 0 {
      CountNeverNegative(cmds[..|cmds| - 1]);
    }
  }

  /** When disconnections never outnumber earlier connections, the count
      after `n` connections and `m` disconnections is `n - m`. */
  lemma {:induction false} CountIsBalance(cmds: seq<Command>)
    requires Balanced(cmds)
    ensures Run(Init(), cmds).onlineCount == Occurrences(cmds, Connect) - Occurrences(cmds, Disconnect)
    decreases |cmds|
  {
    if |cmds| > 0 {
      var init := cmds[..|cmds| - 1];
      CountIsBalance(init);
      assert cmds[..|cmds|] == cmds;
    }
  }

  /** The last announcement of a run carries the count the run ends with. */
  lemma AnnouncesRun(c: Counter, cmds: seq<Command>)
    requires |cmds| > 0
    ensures Handle(Run(c, cmds[..|cmds| - 1]), cmds[|cmds| - 1]).effects
         == [Emit(ToAll, CountUpdate(Run(c, cmds).onlineCount))]
  {
  }

  /** When disconnections never outnumber earlier connections, the last
      announcement after `n` connections and `m` disconnections carries
      `n - m`. */
  lemma LastAnnouncement(cmds: seq<Command>)
    requires |cmds| > 0 && Balanced(cmds)
    ensures Handle(Run(Init(), cmds[..|cmds| - 1]), cmds[|cmds| - 1]).effects
         == [Emit(ToAll, CountUpdate(Occurrences(cmds, Connect) - Occurrences(cmds, Disconnect)))]
  {
    var n := Run(Init(), cmds).onlineCount;
    CountIsBalance(cmds);
    assert n == Occurrences(cmds, Connect) - Occurrences(cmds, Disconnect);
    AnnouncesRun(Init(), cmds);
  }

  datatype World = World(counter: Counter, hub: Hub)

  /** The world after an event, and what the sockets observed, in order. */
  datatype Outcome = Outcome(world: World, deliveries: seq<Delivery<Event>>)

  function Start(): World {
    World(Init(), Idle())
  }

  /** A connection id is fresh when it connects; a disconnection comes from
      a connected socket. */
  predicate Admissible(w: World, sid: SocketId, cmd: Command) {
    if cmd.Connect? then sid !in w.hub.connected else sid in w.hub.connected
  }

  /** The count is the number of connected sockets. */
  predicate Inv(w: World) {
    w.counter.onlineCount == |w.hub.connected|
  }

  /** One connection or disconnection: Socket.IO registers the socket before
      the connect handler and drops it before the disconnect handler, so
      the announcement reaches the newcomer but not the leaver. */
  function Step(w: World, sid: SocketId, cmd: Command): Outcome {
    var hub := match cmd
      case Connect => Transport.Connect(w.hub, sid)
      case Disconnect => Transport.Disconnect(w.hub, sid);
    var reaction := Handle(w.counter, cmd);
    var rp := Replay(hub, sid, reaction.effects);
    Outcome(World(reaction.counter, rp.hub), rp.deliveries)
  }

  /** Each admissible event keeps the count equal to the number of
      connected sockets, and yields exactly one announcement, which reaches
      every connected socket and carries the number of its recipients. */
  lemma StepObserved(w: World, sid: SocketId, cmd: Command)
    requires Inv(w) && Admissible(w, sid, cmd)
    ensures var r := Step(w, sid, cmd);
            && Inv(r.world)
            && r.world.hub.connected == (if cmd.Connect? then w.hub.connected + {sid} else w.hub.connected - {sid})
            && |r.deliveries| == 1
            && r.deliveries[0].recipients == r.world.hub.connected
            && r.deliveries[0].event == CountUpdate(|r.deliveries[0].recipients|)
            && (cmd.Connect? <==> sid in r.deliveries[0].recipients)
  {
    var hub := match cmd
      case Connect => Transport.Connect(w.hub, sid)
      case Disconnect => Transport.Disconnect(w.hub, sid);
    var reaction := Handle(w.counter, cmd);
    ReplayOneEmit(hub, sid, ToAll, CountUpdate(reaction.counter.onlineCount));
    if cmd.Disconnect? {
      assert |w.hub.connected - {sid}| == |w.hub.connected| - 1;
    }
  }
}

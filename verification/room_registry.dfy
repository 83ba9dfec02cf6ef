/** `MultiRoomChatService`: which socket is in which room, under what name,
    and one bounded message history per room. The service object is a
    `Registry` value; each mutating method returns the new value together
    with the method's own result. */
module RoomRegistry {
  import opened Wrappers
  import opened Transport
  import opened RoomTypes
  import OrderedMap
  import History
  import Text

  const MAX_MESSAGES_PER_ROOM: nat := 100

  datatype Registry = Registry(
    users: seq<OrderedMap.Entry<SocketId, RoomUser>>,
    roomMessages: map<Room, seq<RoomMessage>>)

  /** A mutating method's outcome: the registry afterwards and the method's
      own return value. */
  datatype Updated<T> = Updated(reg: Registry, result: T)

  /** What every reachable registry satisfies: one record per socket, stored
      under its own socket id; a history for every room, within the bound,
      holding only messages of that room. */
  predicate Valid(reg: Registry) {
    UsersValid(reg.users) && HistoriesValid(reg.roomMessages)
  }

  predicate UsersValid(users: seq<OrderedMap.Entry<SocketId, RoomUser>>) {
    && OrderedMap.Valid(users)
    && (forall e | e in users :: e.value.socketId == e.key)
  }

  predicate HistoryValid(r: Room, h: seq<RoomMessage>) {
    && |h| <= MAX_MESSAGES_PER_ROOM
    && (forall j | 0 <= j < |h| :: h[j].roomName == r)
  }

  predicate HistoriesValid(rm: map<Room, seq<RoomMessage>>) {
    forall r: Room :: r in rm && HistoryValid(r, rm[r])
  }

  /** `this.roomMessages.get(roomName) || []`. */
  function Messages(reg: Registry, r: Room): (h: seq<RoomMessage>)
    // a valid registry keeps a history for every room, so the `|| []` fallback
    // never fires, and that history is bounded and holds only the room's messages
    ensures Valid(reg) ==> r in reg.roomMessages && h == reg.roomMessages[r] && HistoryValid(r, h)
    ensures r !in reg.roomMessages ==> h == []
  {
    if r in reg.roomMessages then reg.roomMessages[r] else []
  }

  /** The constructor: no users, an empty history for each room. */
  function Init(): (reg: Registry)
    ensures Valid(reg)
    ensures forall s :: GetUser(reg, s) == None
    ensures forall r: Room :: Messages(reg, r) == []
  {
    var reg := Registry([], map[General := [], Tech := [], Random := []]);
    assert HistoriesValid(reg.roomMessages) by {
      forall r: Room ensures r in reg.roomMessages && HistoryValid(r, reg.roomMessages[r]) {
        assert r == General || r == Tech || r == Random;
      }
    }
    reg
  }

  /** `getUser(socketId)`. */
  function GetUser(reg: Registry, sid: SocketId): (u: Option<RoomUser>)
    ensures u.Some? ==> OrderedMap.Entry(sid, u.value) in reg.users
    ensures UsersValid(reg.users) && u.Some? ==> u.value.socketId == sid
  {
    OrderedMap.Get(reg.users, sid)
  }

  /** `addUserToRoom(socketId, userName, roomName)`: records (or overwrites)
      the socket's user record. */
  function AddUserToRoom(reg: Registry, sid: SocketId, userName: string, room: Room): (r: Updated<RoomUser>)
    ensures r.result == RoomUser(sid, userName, room)
    ensures GetUser(r.reg, sid) == Some(r.result)
    ensures forall s | s != sid :: GetUser(r.reg, s) == GetUser(reg, s)
    // a known socket keeps its place in the table; a new one goes last
    ensures OrderedMap.Keys(r.reg.users) ==
      if OrderedMap.Has(reg.users, sid) then OrderedMap.Keys(reg.users) else OrderedMap.Keys(reg.users) + [sid]
    ensures forall ro: Room :: Messages(r.reg, ro) == Messages(reg, ro)
    ensures Valid(reg) ==> Valid(r.reg)
  {
    var user := RoomUser(sid, userName, room);
    var users' := OrderedMap.Set(reg.users, sid, user);
    var reg' := reg.(users := users');
    assert !OrderedMap.Has(reg.users, sid) ==> OrderedMap.Keys(users') == OrderedMap.Keys(reg.users) + [sid] by {
      OrderedMap.KeysAppend(reg.users, OrderedMap.Entry(sid, user));
    }
    assert forall s :: GetUser(reg', s) == if s == sid then Some(user) else GetUser(reg, s) by {
      forall s ensures GetUser(reg', s) == if s == sid then Some(user) else GetUser(reg, s) {
        OrderedMap.GetSet(reg.users, sid, user, s);
      }
    }
    assert Valid(reg) ==> Valid(reg') by {
      if Valid(reg) {
        OrderedMap.SetValid(reg.users, sid, user);
      }
    }
    Updated(reg', user)
  }

  /** `removeUser(socketId)`: returns the stored record, if any, and
      forgets it. */
  function RemoveUser(reg: Registry, sid: SocketId): (r: Updated<Option<RoomUser>>)
    ensures r.result == GetUser(reg, sid)
    ensures GetUser(r.reg, sid) == None
    ensures forall s | s != sid :: GetUser(r.reg, s) == GetUser(reg, s)
    ensures r.result == None ==> r.reg == reg
    // the other sockets keep their order in the table
    ensures Valid(reg) && r.result.Some? ==> OrderedMap.Cut(reg.users, sid, r.reg.users)
    ensures forall ro: Room :: Messages(r.reg, ro) == Messages(reg, ro)
    ensures Valid(reg) ==> Valid(r.reg)
  {
    match GetUser(reg, sid)
    case None => Updated(reg, None)
    case Some(user) =>
      var reg' := reg.(users := OrderedMap.Delete(reg.users, sid));
      assert forall s :: GetUser(reg', s) == if s == sid then None else GetUser(reg, s) by {
        forall s ensures GetUser(reg', s) == if s == sid then None else GetUser(reg, s) {
          OrderedMap.GetDelete(reg.users, sid, s);
        }
      }
      assert Valid(reg) ==> Valid(reg') by {
        if Valid(reg) {
          OrderedMap.DeleteValid(reg.users, sid);
        }
      }
      Updated(reg', Some(user))
  }

  /** A second `removeUser` for the same socket finds nothing and changes
      nothing. */
  lemma RemoveUserTwice(reg: Registry, sid: SocketId)
    ensures var reg' := RemoveUser(reg, sid).reg; RemoveUser(reg', sid) == Updated(reg', None)
  {
  }

  /** `r` is `s` with some elements left out and the rest kept in order. */
  predicate Sublist<T(==)>(r: seq<T>, s: seq<T>)
    decreases |s|
  {
    if |r| == 0 then true
    else if |s| == 0 then false
    else (r[0] == s[0] && Sublist(r[1..], s[1..])) || Sublist(r, s[1..])
  }

  /** No two records share a socket id. */
  predicate DistinctSockets(us: seq<RoomUser>) {
    forall i, j | 0 <= i < j < |us| :: us[i].socketId != us[j].socketId
  }

  /** `Array.from(users.values()).filter(u => u.currentRoom === room)`. */
  function FilterRoom(users: seq<OrderedMap.Entry<SocketId, RoomUser>>, room: Room): (r: seq<RoomUser>)
    // exactly the stored records in `room` ...
    ensures forall u :: u in r <==> u in OrderedMap.Values(users) && u.currentRoom == room
    // ... in insertion order ...
    ensures Sublist(r, OrderedMap.Values(users))
    // ... each listed once
    ensures UsersValid(users) ==> DistinctSockets(r)
    decreases |users|
  {
    if |users| == 0 then []
    else
      var rest := FilterRoom(users[1..], room);
      var vs := OrderedMap.Values(users);
      assert vs == [users[0].value] + OrderedMap.Values(users[1..]);
      assert vs[1..] == OrderedMap.Values(users[1..]);
      SublistCons(vs, room, rest);
      DistinctCons(users, room, rest);
      if users[0].value.currentRoom == room then [users[0].value] + rest else rest
  }

  /** One step of the filter keeps the result a sublist of the values:
      a dropped first record cannot be the head of the rest, which is in
      another room. */
  lemma SublistCons(vs: seq<RoomUser>, room: Room, rest: seq<RoomUser>)
    requires |vs| > 0 && Sublist(rest, vs[1..])
    requires forall u | u in rest :: u.currentRoom == room
    ensures Sublist(if vs[0].currentRoom == room then [vs[0]] + rest else rest, vs)
  {
    if vs[0].currentRoom == room {
      assert ([vs[0]] + rest)[1..] == rest;
    } else if |rest| > 0 {
      assert rest[0] in rest;
    }
  }

  /** One step of the filter keeps the socket ids distinct: a kept first
      record's key occurs nowhere in the rest of a valid table. */
  lemma DistinctCons(users: seq<OrderedMap.Entry<SocketId, RoomUser>>, room: Room, rest: seq<RoomUser>)
    requires |users| > 0
    requires forall u | u in rest :: u in OrderedMap.Values(users[1..])
    requires UsersValid(users[1..]) ==> DistinctSockets(rest)
    ensures UsersValid(users) ==>
      DistinctSockets(if users[0].value.currentRoom == room then [users[0].value] + rest else rest)
  {
    if UsersValid(users) {
      UsersValidTail(users);
    }
    if UsersValid(users) && users[0].value.currentRoom == room {
      var r := [users[0].value] + rest;
      forall j | 0 < j < |r| ensures r[0].socketId != r[j].socketId {
        var x := rest[j - 1];
        assert x in rest;
        var tail := OrderedMap.Values(users[1..]);
        var k :| 0 <= k < |tail| && tail[k] == x;
        assert users[1..][k].value == x && users[1..][k] == users[k + 1];
        assert users[k + 1] in users && users[0] in users;
      }
      assert forall i, j | 0 < i < j < |r| :: r[i] == rest[i - 1] && r[j] == rest[j - 1];
    }
  }

  /** Dropping the first entry keeps a user table valid. */
  lemma UsersValidTail(users: seq<OrderedMap.Entry<SocketId, RoomUser>>)
    requires |users| > 0 && UsersValid(users)
    ensures UsersValid(users[1..])
  {
    forall e | e in users[1..] ensures e in users { }
  }

  /** `getUsersInRoom(roomName)`. */
  function GetUsersInRoom(reg: Registry, room: Room): (r: seq<RoomUser>)
    ensures forall u :: u in r <==> u in OrderedMap.Values(reg.users) && u.currentRoom == room
    ensures Sublist(r, OrderedMap.Values(reg.users))
    ensures Valid(reg) ==> DistinctSockets(r)
  {
    FilterRoom(reg.users, room)
  }

  /** In a valid registry the stored records are exactly what `getUser`
      returns. */
  lemma StoredIffGet(reg: Registry, u: RoomUser)
    requires Valid(reg)
    ensures u in OrderedMap.Values(reg.users) <==> GetUser(reg, u.socketId) == Some(u)
  {
    if u in OrderedMap.Values(reg.users) {
      var i :| 0 <= i < |reg.users| && OrderedMap.Values(reg.users)[i] == u;
      assert reg.users[i] in reg.users;
      OrderedMap.EntryInIffGet(reg.users, u.socketId, u);
    }
    if GetUser(reg, u.socketId) == Some(u) {
      var i :| 0 <= i < |reg.users| && reg.users[i] == OrderedMap.Entry(u.socketId, u);
      assert OrderedMap.Values(reg.users)[i] == u;
    }
  }

  /** `getUsersInRoom(room)` lists a socket exactly when its stored record
      says it is in `room`; so every registered socket is listed in exactly
      one room. */
  lemma ListedIffInRoom(reg: Registry, room: Room, u: RoomUser)
    requires Valid(reg)
    ensures u in GetUsersInRoom(reg, room) <==> GetUser(reg, u.socketId) == Some(u) && u.currentRoom == room
  {
    StoredIffGet(reg, u);
  }

  /** `switchUserRoom(socketId, newRoomName)`: moves a known socket,
      keeping its name. */
  function SwitchUserRoom(reg: Registry, sid: SocketId, room: Room): (r: Updated<Option<RoomUser>>)
    ensures GetUser(reg, sid).None? ==> r == Updated(reg, None)
    ensures GetUser(reg, sid).Some? ==>
      && r.result == Some(GetUser(reg, sid).value.(currentRoom := room))
      && GetUser(r.reg, sid) == r.result
      && OrderedMap.Keys(r.reg.users) == OrderedMap.Keys(reg.users)
    ensures forall s | s != sid :: GetUser(r.reg, s) == GetUser(reg, s)
    ensures forall ro: Room :: Messages(r.reg, ro) == Messages(reg, ro)
    ensures Valid(reg) ==> Valid(r.reg)
  {
    match GetUser(reg, sid)
    case None => Updated(reg, None)
    case Some(user) =>
      var moved := user.(currentRoom := room);
      var users' := OrderedMap.Set(reg.users, sid, moved);
      var reg' := reg.(users := users');
      assert OrderedMap.Has(reg.users, sid);
      assert forall s :: GetUser(reg', s) == if s == sid then Some(moved) else GetUser(reg, s) by {
        forall s ensures GetUser(reg', s) == if s == sid then Some(moved) else GetUser(reg, s) {
          OrderedMap.GetSet(reg.users, sid, moved, s);
        }
      }
      assert Valid(reg) ==> Valid(reg') by {
        if Valid(reg) {
          OrderedMap.SetValid(reg.users, sid, moved);
        }
      }
      Updated(reg', Some(moved))
  }

  /** `addMessageToRoom(socketId, roomName, message)`, with the id and the
      clock reading that the source draws from `Date.now()` and
      `Math.random()` passed in. */
  function AddMessageToRoom(reg: Registry, sid: SocketId, room: Room, text: string, id: string, now: int)
    : (r: Updated<Option<RoomMessage>>)
    // rejected exactly when the sender is unknown or is in another room; nothing changes then
    ensures r.result.None? <==> GetUser(reg, sid).None? || GetUser(reg, sid).value.currentRoom != room
    ensures r.result.None? ==> r.reg == reg
    // accepted: the message carries the room, the stored name and the trimmed body ...
    ensures r.result.Some? ==> r.result.value == RoomMessage(id, room, GetUser(reg, sid).value.userName, Text.Trim(text), now)
    // ... and goes last into that room's history, with FIFO eviction ...
    ensures r.result.Some? ==> Messages(r.reg, room) == History.Push(Messages(reg, room), r.result.value, MAX_MESSAGES_PER_ROOM)
    // ... and nothing else changes
    ensures r.reg.users == reg.users
    ensures forall ro: Room | ro != room :: Messages(r.reg, ro) == Messages(reg, ro)
    ensures Valid(reg) ==> Valid(r.reg)
  {
    match GetUser(reg, sid)
    case None => Updated(reg, None)
    case Some(user) =>
      if user.currentRoom != room then Updated(reg, None)
      else
        var msg := RoomMessage(id, room, user.userName, Text.Trim(text), now);
        var history := History.Push(Messages(reg, room), msg, MAX_MESSAGES_PER_ROOM);
        var reg' := reg.(roomMessages := reg.roomMessages[room := history]);
        assert Valid(reg) ==> Valid(reg') by {
          if Valid(reg) {
            PushKeepsHistoryValid(room, Messages(reg, room), msg);
          }
        }
        Updated(reg', Some(msg))
  }

  /** Appending a message of room `r` to a valid history of `r` keeps it valid. */
  lemma PushKeepsHistoryValid(r: Room, h: seq<RoomMessage>, msg: RoomMessage)
    requires HistoryValid(r, h) && msg.roomName == r
    ensures HistoryValid(r, History.Push(h, msg, MAX_MESSAGES_PER_ROOM))
  {
    var h' := History.Push(h, msg, MAX_MESSAGES_PER_ROOM);
    forall j | 0 <= j < |h'| ensures h'[j].roomName == r {
      assert h'[j] == (h + [msg])[|h| + 1 - |h'| + j];
    }
  }

  /** `getRoomMessages(roomName, limit?)`: a read; the registry is a value,
      so nothing can change. */
  function GetRoomMessages(reg: Registry, room: Room, limit: Option<int>): (r: seq<RoomMessage>)
    ensures limit == None || limit == Some(0) ==> r == Messages(reg, room)
    ensures limit.Some? && limit.value > 0 ==>
      |r| == History.Min(limit.value, |Messages(reg, room)|) && r == Messages(reg, room)[|Messages(reg, room)| - |r|..]
    // a negative limit: everything but the first -limit messages
    ensures limit.Some? && limit.value < 0 ==> r == Messages(reg, room)[History.Min(-limit.value, |Messages(reg, room)|)..]
  {
    History.Recent(Messages(reg, room), limit)
  }
}

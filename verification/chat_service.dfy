/** `ChatService`: the users of the single chat room, by socket id, and one
    bounded message history. The service object is a `Service` value; each
    mutating method returns the new value together with the method's own
    result. */
module ChatService {
  import opened Wrappers
  import opened Transport
  import OrderedMap
  import History
  import Text

  const MAX_MESSAGES: nat := 100

  datatype ChatUser = ChatUser(id: SocketId, name: string)

  /** A stored message; `timestamp` is the clock reading in milliseconds. */
  datatype ChatMessage = ChatMessage(id: string, userId: SocketId, userName: string, message: string, timestamp: int)

  datatype Service = Service(users: seq<OrderedMap.Entry<SocketId, ChatUser>>, messages: seq<ChatMessage>)

  /** A mutating method's outcome: the service afterwards and the method's
      own return value. */
  datatype Updated<T> = Updated(svc: Service, result: T)

  /** What every reachable service satisfies: one record per socket, stored
      under its own id, and a history within the bound. */
  predicate Valid(svc: Service) {
    && OrderedMap.Valid(svc.users)
    && (forall e | e in svc.users :: e.value.id == e.key)
    && |svc.messages| <= MAX_MESSAGES
  }

  /** A fresh service: no users, no messages. */
  function Init(): (svc: Service)
    ensures Valid(svc)
    ensures forall s :: GetUser(svc, s) == None
    ensures svc.messages == []
  {
    Service([], [])
  }

  /** `getUser(socketId)`. */
  function GetUser(svc: Service, sid: SocketId): (u: Option<ChatUser>)
    ensures u.Some? ==> OrderedMap.Entry(sid, u.value) in svc.users
    ensures Valid(svc) && u.Some? ==> u.value.id == sid
  {
    OrderedMap.Get(svc.users, sid)
  }

  /** `addUser(socketId, userName)`: records (or overwrites) the socket's
      user. */
  function AddUser(svc: Service, sid: SocketId, userName: string): (r: Updated<ChatUser>)
    ensures r.result == ChatUser(sid, userName)
    ensures GetUser(r.svc, sid) == Some(r.result)
    ensures forall s | s != sid :: GetUser(r.svc, s) == GetUser(svc, s)
    ensures r.svc.messages == svc.messages
    ensures Valid(svc) ==> Valid(r.svc)
  {
    var user := ChatUser(sid, userName);
    var svc' := svc.(users := OrderedMap.Set(svc.users, sid, user));
    assert forall s :: GetUser(svc', s) == if s == sid then Some(user) else GetUser(svc, s) by {
      forall s ensures GetUser(svc', s) == if s == sid then Some(user) else GetUser(svc, s) {
        OrderedMap.GetSet(svc.users, sid, user, s);
      }
    }
    assert Valid(svc) ==> Valid(svc') by {
      if Valid(svc) {
        OrderedMap.SetValid(svc.users, sid, user);
      }
    }
    Updated(svc', user)
  }

  /** `removeUser(socketId)`: returns the stored user, if any, and forgets
      it. */
  function RemoveUser(svc: Service, sid: SocketId): (r: Updated<Option<ChatUser>>)
    ensures r.result == GetUser(svc, sid)
    ensures GetUser(r.svc, sid) == None
    ensures forall s | s != sid :: GetUser(r.svc, s) == GetUser(svc, s)
    ensures r.result == None ==> r.svc == svc
    ensures r.svc.messages == svc.messages
    ensures Valid(svc) ==> Valid(r.svc)
  {
    match GetUser(svc, sid)
    case None => Updated(svc, None)
    case Some(user) =>
      var svc' := svc.(users := OrderedMap.Delete(svc.users, sid));
      assert forall s :: GetUser(svc', s) == if s == sid then None else GetUser(svc, s) by {
        forall s ensures GetUser(svc', s) == if s == sid then None else GetUser(svc, s) {
          OrderedMap.GetDelete(svc.users, sid, s);
        }
      }
      assert Valid(svc) ==> Valid(svc') by {
        if Valid(svc) {
          OrderedMap.DeleteValid(svc.users, sid);
        }
      }
      Updated(svc', Some(user))
  }

  /** A second `removeUser` for the same socket finds nothing and changes
      nothing. */
  lemma RemoveUserTwice(svc: Service, sid: SocketId)
    ensures var svc' := RemoveUser(svc, sid).svc; RemoveUser(svc', sid) == Updated(svc', None)
  {
  }

  /** `getAllUsers()`: the stored users in insertion order. */
  function GetAllUsers(svc: Service): (r: seq<ChatUser>)
    ensures |r| == |svc.users|
  {
    OrderedMap.Values(svc.users)
  }

  /** `getAllUsers()` lists a user exactly when `getUser` finds it under its
      own id. */
  lemma AllUsersIffGet(svc: Service, u: ChatUser)
    requires Valid(svc)
    ensures u in GetAllUsers(svc) <==> GetUser(svc, u.id) == Some(u)
  {
    if u in GetAllUsers(svc) {
      var i :| 0 <= i < |svc.users| && GetAllUsers(svc)[i] == u;
      assert svc.users[i] in svc.users;
      OrderedMap.EntryInIffGet(svc.users, u.id, u);
    }
    if GetUser(svc, u.id) == Some(u) {
      var i :| 0 <= i < |svc.users| && svc.users[i] == OrderedMap.Entry(u.id, u);
      assert GetAllUsers(svc)[i] == u;
    }
  }

  /** `addMessage(userId, message)`, with the id and the clock reading the
      source draws from `Date.now()` and `Math.random()` passed in. */
  function AddMessage(svc: Service, userId: SocketId, message: string, id: string, now: int)
    : (r: Updated<Option<ChatMessage>>)
    // rejected exactly when the sender is unknown; nothing changes then
    ensures r.result.None? <==> GetUser(svc, userId).None?
    ensures r.result.None? ==> r.svc == svc
    // accepted: the sender's id, stored name and trimmed body ...
    ensures r.result.Some? ==>
      var user := GetUser(svc, userId).value;
      r.result.value == ChatMessage(id, user.id, user.name, Text.Trim(message), now)
    // ... go last into the history, with FIFO eviction
    ensures r.result.Some? ==> r.svc.messages == History.Push(svc.messages, r.result.value, MAX_MESSAGES)
    ensures r.svc.users == svc.users
    ensures Valid(svc) ==> Valid(r.svc)
  {
    match GetUser(svc, userId)
    case None => Updated(svc, None)
    case Some(user) =>
      var msg := ChatMessage(id, user.id, user.name, Text.Trim(message), now);
      Updated(svc.(messages := History.Push(svc.messages, msg, MAX_MESSAGES)), Some(msg))
  }

  /** `getMessages(limit?)`: a read; the service is a value, so nothing can
      change. */
  function GetMessages(svc: Service, limit: Option<int>): (r: seq<ChatMessage>)
    ensures limit == None || limit == Some(0) ==> r == svc.messages
    ensures limit.Some? && limit.value > 0 ==>
      |r| == History.Min(limit.value, |svc.messages|) && r == svc.messages[|svc.messages| - |r|..]
    // a negative limit: everything but the first -limit messages
    ensures limit.Some? && limit.value < 0 ==> r == svc.messages[History.Min(-limit.value, |svc.messages|)..]
  {
    History.Recent(svc.messages, limit)
  }

  /** One `addMessage(userId, message)` call, with the id and the clock
      reading it draws. */
  datatype Request = Request(userId: SocketId, text: string, id: string, now: int)

  /** Every request of a run comes from a sender the service knows. */
  predicate FromKnown(svc: Service, reqs: seq<Request>) {
    forall i | 0 <= i < |reqs| :: GetUser(svc, reqs[i].userId).Some?
  }

  /** The messages a run of requests from known senders creates: each
      carries its sender's id and stored name, its trimmed body, and its
      own id and clock reading. */
  function Outbox(svc: Service, reqs: seq<Request>): (r: seq<ChatMessage>)
    requires FromKnown(svc, reqs)
    ensures |r| == |reqs|
    ensures forall i | 0 <= i < |r| ::
      var user := GetUser(svc, reqs[i].userId).value;
      r[i] == ChatMessage(reqs[i].id, user.id, user.name, Text.Trim(reqs[i].text), reqs[i].now)
    decreases |reqs|
  {
    if |reqs| == 0 then []
    else
      var req := reqs[0];
      var user := GetUser(svc, req.userId).value;
      assert FromKnown(svc, reqs[1..]) by {
        forall i | 0 <= i < |reqs| - 1 ensures GetUser(svc, reqs[1..][i].userId).Some? {
          assert reqs[1..][i] == reqs[i + 1];
        }
      }
      [ChatMessage(req.id, user.id, user.name, Text.Trim(req.text), req.now)] + Outbox(svc, reqs[1..])
  }

  /** `addMessage` for each request in turn. */
  function AddAll(svc: Service, reqs: seq<Request>): Service
    decreases |reqs|
  {
    if |reqs| == 0 then svc
    else AddAll(AddMessage(svc, reqs[0].userId, reqs[0].text, reqs[0].id, reqs[0].now).svc, reqs[1..])
  }

  /** The outbox depends on the users only. */
  lemma OutboxUsers(svc: Service, svc': Service, reqs: seq<Request>)
    requires svc'.users == svc.users && FromKnown(svc, reqs)
    ensures FromKnown(svc', reqs) && Outbox(svc', reqs) == Outbox(svc, reqs)
  {
    assert forall s :: GetUser(svc', s) == GetUser(svc, s);
  }

  /** A run of requests from known senders, whoever sends each and
      whenever, is a run of pushes of the messages it creates. */
  lemma {:induction false} AddAllPushes(svc: Service, reqs: seq<Request>)
    requires FromKnown(svc, reqs)
    ensures AddAll(svc, reqs).messages == History.PushAll(svc.messages, Outbox(svc, reqs), MAX_MESSAGES)
    decreases |reqs|
  {
    if |reqs| > 0 {
      var req := reqs[0];
      var added := AddMessage(svc, req.userId, req.text, req.id, req.now);
      var out := Outbox(svc, reqs);
      assert out[1..] == Outbox(svc, reqs[1..]);
      OutboxUsers(svc, added.svc, reqs[1..]);
      AddAllPushes(added.svc, reqs[1..]);
      assert added.svc.messages == History.Push(svc.messages, out[0], MAX_MESSAGES);
    }
  }

  /** Accepted messages, one after the other and from any known senders,
      starting from a service within the bound: the history holds exactly
      the newest `MAX_MESSAGES` of everything ever accepted, oldest first. */
  lemma AddMessagesKeepNewest(svc: Service, reqs: seq<Request>)
    requires Valid(svc) && FromKnown(svc, reqs)
    ensures AddAll(svc, reqs).messages == History.Window(svc.messages + Outbox(svc, reqs), MAX_MESSAGES)
  {
    AddAllPushes(svc, reqs);
    History.PushAllKeepsNewest(svc.messages, Outbox(svc, reqs), MAX_MESSAGES);
  }
}

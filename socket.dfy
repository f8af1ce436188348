/**
 * The presence registry and event router of the chat server
 * (backend/src/lib/socket.js).
 *
 * `userSocketMap` is a plain JavaScript object from a user id to the socket
 * id of that user's latest connection. A JavaScript object remembers the
 * order in which its string keys were first added, and `Object.keys` and
 * `Object.entries` list them in that order (keys that look like array
 * indices, such as "5", would come first in numeric order; user ids are
 * 24-character hexadecimal strings, too long to be indices). So the map is
 * modelled as a sequence of (user id, socket id) entries with distinct
 * keys. Everything the server sends is appended to `log`, in the order it
 * is sent.
 */
module Socket {
  import opened Common

  /** The display fields the controllers copy from a user into an event. */
  datatype UserCard = UserCard(id: UserId, fullName: string, profilePic: string)

  /** The payload of one emitted event. */
  datatype Payload =
    | OnlineUsers(userIds: seq<UserId>)                      // getOnlineUsers: Object.keys(userSocketMap)
    | Sender(senderId: Option<UserId>)                       // typing / stopTyping: { senderId }
    | ReadReceipt(messageId: string)                         // messageRead: { messageId }
    | NewRequest(requestId: string, from: UserCard)          // friendRequest
    | RequestAccepted(requestId: string, user: UserCard)     // friendRequestAccepted
    | RemovedBy(userId: UserId)                              // friendRemoved: { userId }
    | Actor(userName: string)                                // postLiked / postCommented: { userName }

  /** One send: `io.to(socketId).emit(event, payload)` or `io.emit(event, payload)`. */
  datatype Delivery =
    | Routed(socketId: SocketId, event: string, payload: Payload)
    | Broadcast(event: string, payload: Payload)

  /** `userSocketMap`, in key-insertion order. */
  type Entries = seq<(UserId, SocketId)>

  /** `Object.keys(userSocketMap)`. */
  function Keys(e: Entries): (ks: seq<UserId>)
    ensures |ks| == |e|
    ensures forall i :: 0 <= i < |e| ==> ks[i] == e[i].0
    decreases |e|
  {
    if e == [] then [] else [e[0].0] + Keys(e[1..])
  }

  /** The socket ids in the map, in entry order. */
  function Values(e: Entries): (vs: seq<SocketId>)
    ensures |vs| == |e|
    ensures forall i :: 0 <= i < |e| ==> vs[i] == e[i].1
    decreases |e|
  {
    if e == [] then [] else [e[0].1] + Values(e[1..])
  }

  /** No user id appears twice: a JavaScript object has at most one property per name. */
  predicate DistinctKeys(e: Entries)
    decreases |e|
  {
    e == [] || (e[0].0 !in Keys(e[1..]) && DistinctKeys(e[1..]))
  }

  /** No socket id is mapped from two users. */
  predicate DistinctValues(e: Entries)
    decreases |e|
  {
    e == [] || (e[0].1 !in Values(e[1..]) && DistinctValues(e[1..]))
  }

  /**
   * `userSocketMap[userId]`: the socket of the entry for `u`, absent (never
   * an error) when there is none.
   */
  function Lookup(e: Entries, u: UserId): (r: Option<SocketId>)
    ensures r.None? <==> u !in Keys(e)
    ensures r.Some? ==> (u, r.value) in e && r.value in Values(e)
    decreases |e|
  {
    if e == [] then None
    else if e[0].0 == u then Some(e[0].1)
    else Lookup(e[1..], u)
  }

  /**
   * `userSocketMap[u] = s`: overwrites the value of an existing entry in
   * place, or adds a new entry at the end.
   */
  function Assign(e: Entries, u: UserId, s: SocketId): (r: Entries)
    decreases |e|
  {
    if e == [] then [(u, s)]
    else if e[0].0 == u then [(u, s)] + e[1..]
    else [e[0]] + Assign(e[1..], u, s)
  }

  /**
   * After an assignment `u` resolves to `s` and every other user resolves
   * as before: the last connection wins.
   */
  lemma {:induction false} AssignLookup(e: Entries, u: UserId, s: SocketId, v: UserId)
    ensures Lookup(Assign(e, u, s), v) == if v == u then Some(s) else Lookup(e, v)
    decreases |e|
  {
    if e != [] && e[0].0 != u && e[0].0 != v {
      AssignLookup(e[1..], u, s, v);
    }
  }

  /** An overwrite keeps the key order; a new user is listed last. */
  lemma {:induction false} AssignKeys(e: Entries, u: UserId, s: SocketId)
    ensures Keys(Assign(e, u, s)) == if u in Keys(e) then Keys(e) else Keys(e) + [u]
    decreases |e|
  {
    if e != [] && e[0].0 != u {
      AssignKeys(e[1..], u, s);
    }
  }

  /** The values after an assignment are `s` and values that were already there. */
  lemma {:induction false} AssignValues(e: Entries, u: UserId, s: SocketId)
    ensures forall x :: x in Values(Assign(e, u, s)) ==> x == s || x in Values(e)
    decreases |e|
  {
    if e != [] && e[0].0 != u {
      AssignValues(e[1..], u, s);
    }
  }

  /**
   * An assignment of a socket id that is not yet a value keeps both the
   * keys and the values distinct.
   */
  lemma {:induction false} AssignDistinct(e: Entries, u: UserId, s: SocketId)
    requires DistinctKeys(e) && DistinctValues(e) && s !in Values(e)
    ensures DistinctKeys(Assign(e, u, s)) && DistinctValues(Assign(e, u, s))
    decreases |e|
  {
    if e != [] && e[0].0 != u {
      AssignDistinct(e[1..], u, s);
      AssignKeys(e[1..], u, s);
      AssignValues(e[1..], u, s);
    }
  }

  /**
   * The body of the disconnect loop: deletes the first entry whose value is
   * `s`, and leaves the entries as they are when there is none.
   */
  function RemoveValue(e: Entries, s: SocketId): (r: Entries)
    decreases |e|
  {
    if e == [] then []
    else if e[0].1 == s then e[1..]
    else [e[0]] + RemoveValue(e[1..], s)
  }

  /** The scan stops at the first entry whose value is `s`, the index `i`. */
  lemma {:induction false} RemoveValueAt(e: Entries, s: SocketId, i: nat)
    requires i <= |e|
    requires forall j :: 0 <= j < i ==> e[j].1 != s
    requires i < |e| ==> e[i].1 == s
    ensures RemoveValue(e, s) == if i < |e| then e[..i] + e[i + 1..] else e
    decreases i
  {
    if i > 0 {
      RemoveValueAt(e[1..], s, i - 1);
      if i < |e| {
        assert e[..i] + e[i + 1..] == [e[0]] + (e[1..][..i - 1] + e[1..][i..]);
      } else {
        assert e == [e[0]] + e[1..];
      }
    }
  }

  /** A disconnect removes nothing when no entry has the closing socket as value. */
  lemma {:induction false} NoMatchUnchanged(e: Entries, s: SocketId)
    requires s !in Values(e)
    ensures RemoveValue(e, s) == e
    decreases |e|
  {
    if e != [] {
      NoMatchUnchanged(e[1..], s);
    }
  }

  /** Removing an entry only drops keys and values, and keeps both distinct. */
  lemma {:induction false} RemoveValueDistinct(e: Entries, s: SocketId)
    requires DistinctKeys(e) && DistinctValues(e)
    ensures DistinctKeys(RemoveValue(e, s)) && DistinctValues(RemoveValue(e, s))
    ensures forall x :: x in Keys(RemoveValue(e, s)) ==> x in Keys(e)
    ensures forall x :: x in Values(RemoveValue(e, s)) ==> x in Values(e)
    ensures s !in Values(RemoveValue(e, s))
    decreases |e|
  {
    if e != [] && e[0].1 != s {
      RemoveValueDistinct(e[1..], s);
    }
  }

  /**
   * With distinct values, a disconnect of `s` removes exactly the user that
   * resolves to `s`: every other user resolves as before.
   */
  lemma {:induction false} RemoveValueLookup(e: Entries, s: SocketId, v: UserId)
    requires DistinctKeys(e) && DistinctValues(e)
    ensures Lookup(RemoveValue(e, s), v) == if Lookup(e, v) == Some(s) then None else Lookup(e, v)
    decreases |e|
  {
    if e != [] {
      if e[0].1 != s && e[0].0 != v {
        RemoveValueLookup(e[1..], s, v);
      }
    }
  }

  /**
   * Disconnecting the same socket twice has the effect of disconnecting it
   * once: after the first removal no entry has that value any more.
   */
  lemma DisconnectIdempotent(e: Entries, s: SocketId)
    requires DistinctKeys(e) && DistinctValues(e)
    ensures RemoveValue(RemoveValue(e, s), s) == RemoveValue(e, s)
  {
    RemoveValueDistinct(e, s);
    NoMatchUnchanged(RemoveValue(e, s), s);
  }

  /**
   * The scan of `Object.entries(userSocketMap)` in order: the index of the
   * first entry whose value is `s`, or the length when there is none.
   */
  method FindValue(e: Entries, s: SocketId) returns (i: nat)
    ensures i <= |e|
    ensures forall j :: 0 <= j < i ==> e[j].1 != s
    ensures i < |e| ==> e[i].1 == s
  {
    i := 0;
    while i < |e| && e[i].1 != s
      invariant i <= |e|
      invariant forall j :: 0 <= j < i ==> e[j].1 != s
    {
      i := i + 1;
    }
  }

  /**
   * `delete userSocketMap[userId]` for the entry at `i`, the first one
   * holding `s`: the entry goes and the others keep their order.
   */
  method DeleteEntry(e: Entries, s: SocketId, i: nat) returns (r: Entries)
    requires i < |e| && e[i].1 == s
    requires forall j :: 0 <= j < i ==> e[j].1 != s
    ensures r == RemoveValue(e, s)
    ensures |r| == |e| - 1
  {
    r := e[..i] + e[i + 1..];
    RemoveValueAt(e, s, i);
  }

  /**
   * A disconnect keeps the registry well formed (distinct keys and values,
   * no empty user id) and takes offline exactly the user that resolved to
   * the closing socket.
   */
  lemma {:induction false} DisconnectKeepsRegistry(e: Entries, s: SocketId)
    requires DistinctKeys(e) && DistinctValues(e) && "" !in Keys(e)
    ensures DistinctKeys(RemoveValue(e, s)) && DistinctValues(RemoveValue(e, s)) && "" !in Keys(RemoveValue(e, s))
    ensures forall v :: Lookup(RemoveValue(e, s), v) == if Lookup(e, v) == Some(s) then None else Lookup(e, v)
  {
    RemoveValueDistinct(e, s);
    forall v ensures Lookup(RemoveValue(e, s), v) == if Lookup(e, v) == Some(s) then None else Lookup(e, v) {
      RemoveValueLookup(e, s, v);
    }
  }

  /** What `route` sends: one delivery to the mapped socket of `u`, or nothing. */
  function RouteOutput(e: Entries, u: UserId, event: string, payload: Payload): (out: seq<Delivery>)
    ensures |out| <= 1
    ensures out != [] <==> u in Keys(e)
    ensures forall d :: d in out ==> d.Routed? && d.event == event && d.payload == payload && Lookup(e, u) == Some(d.socketId)
  {
    match Lookup(e, u)
    case None => []
    case Some(s) => [Routed(s, event, payload)]
  }

  /** The presence registry: the process-wide `userSocketMap` and the server's output. */
  class PresenceServer {
    var userSocketMap: Entries
    var log: seq<Delivery>

    /**
     * At most one entry per user, no socket serving two users, and no
     * entry for the empty user id (which the handshake check rejects).
     */
    ghost predicate Valid()
      reads this
    {
      && DistinctKeys(userSocketMap)
      && DistinctValues(userSocketMap)
      && "" !in Keys(userSocketMap)
    }

    constructor ()
      ensures Valid()
      ensures userSocketMap == [] && log == []
    {
      userSocketMap := [];
      log := [];
    }

    /** `getReceiverSocketId(userId)`. */
    function GetReceiverSocketId(userId: UserId): Option<SocketId>
      reads this
    {
      Lookup(userSocketMap, userId)
    }

    /** The `getOnlineUsers` broadcast of the current key list. */
    function OnlineBroadcast(): Delivery
      reads this
    {
      Broadcast("getOnlineUsers", OnlineUsers(Keys(userSocketMap)))
    }

    /**
     * The router every producer uses: look the recipient up, and send to
     * the mapped socket or drop the event silently.
     */
    method Route(userId: UserId, event: string, payload: Payload)
      modifies this
      ensures userSocketMap == old(userSocketMap)
      ensures log == old(log) + RouteOutput(userSocketMap, userId, event, payload)
    {
      var receiverSocketId := GetReceiverSocketId(userId);
      if receiverSocketId.Some? {
        log := log + [Routed(receiverSocketId.value, event, payload)];
      }
    }

    /**
     * The connection handler. A handshake that carries a non-empty
     * `userId` maps that user to this socket, overwriting (without closing)
     * any earlier socket of the same user; an anonymous connection leaves
     * the map alone. Either way the key list is broadcast.
     * The transport gives every connection a fresh socket id.
     */
    method Connect(socketId: SocketId, handshakeUserId: Option<string>)
      requires Valid()
      requires socketId !in Values(userSocketMap)
      modifies this
      ensures Valid()
      ensures handshakeUserId.Some? && handshakeUserId.value != "" ==>
                && userSocketMap == Assign(old(userSocketMap), handshakeUserId.value, socketId)
                && Lookup(userSocketMap, handshakeUserId.value) == Some(socketId)
                && forall v :: v != handshakeUserId.value ==> Lookup(userSocketMap, v) == Lookup(old(userSocketMap), v)
      ensures handshakeUserId.None? || handshakeUserId.value == "" ==> userSocketMap == old(userSocketMap)
      ensures log == old(log) + [OnlineBroadcast()]
    {
      if handshakeUserId.Some? && handshakeUserId.value != "" {
        var userId := handshakeUserId.value;
        AssignDistinct(userSocketMap, userId, socketId);
        AssignKeys(userSocketMap, userId, socketId);
        var m := Assign(userSocketMap, userId, socketId);
        forall v ensures Lookup(m, v) == if v == userId then Some(socketId) else Lookup(userSocketMap, v) {
          AssignLookup(userSocketMap, userId, socketId, v);
        }
        userSocketMap := m;
      }
      log := log + [OnlineBroadcast()];
    }

    /**
     * `typing`: relayed as `{ senderId }` to the receiver's socket, where
     * the sender is whatever user id this connection's handshake carried
     * (nothing checks that it is registered).
     */
    method Typing(handshakeUserId: Option<string>, receiverId: Option<UserId>)
      modifies this
      ensures userSocketMap == old(userSocketMap)
      ensures receiverId.Some? ==> log == old(log) + RouteOutput(userSocketMap, receiverId.value, "typing", Sender(handshakeUserId))
      ensures receiverId.None? ==> log == old(log)
    {
      if receiverId.Some? {
        Route(receiverId.value, "typing", Sender(handshakeUserId));
      }
    }

    /** `stopTyping`: the same relay as `typing`, under its own event name. */
    method StopTyping(handshakeUserId: Option<string>, receiverId: Option<UserId>)
      modifies this
      ensures userSocketMap == old(userSocketMap)
      ensures receiverId.Some? ==> log == old(log) + RouteOutput(userSocketMap, receiverId.value, "stopTyping", Sender(handshakeUserId))
      ensures receiverId.None? ==> log == old(log)
    {
      if receiverId.Some? {
        Route(receiverId.value, "stopTyping", Sender(handshakeUserId));
      }
    }

    /** `messageRead`: `{ messageId }` relayed to the receiver's socket only. */
    method MessageRead(messageId: string, receiverId: Option<UserId>)
      modifies this
      ensures userSocketMap == old(userSocketMap)
      ensures receiverId.Some? ==> log == old(log) + RouteOutput(userSocketMap, receiverId.value, "messageRead", ReadReceipt(messageId))
      ensures receiverId.None? ==> log == old(log)
    {
      if receiverId.Some? {
        Route(receiverId.value, "messageRead", ReadReceipt(messageId));
      }
    }

    /**
     * The disconnect handler: scans the entries in order for the first one
     * whose value is the closing socket and deletes it, then broadcasts the
     * key list. A superseded or anonymous socket matches no entry, so the
     * newer connection of the same user stays mapped.
     */
    method Disconnect(socketId: SocketId)
      requires Valid()
      modifies this
      ensures Valid()
      ensures userSocketMap == RemoveValue(old(userSocketMap), socketId)
      ensures forall v :: Lookup(userSocketMap, v) ==
                if Lookup(old(userSocketMap), v) == Some(socketId) then None else Lookup(old(userSocketMap), v)
      ensures log == old(log) + [OnlineBroadcast()]
    {
      var entries := userSocketMap;
      var i := FindValue(entries, socketId);
      DisconnectKeepsRegistry(entries, socketId);
      if i < |entries| {
        userSocketMap := DeleteEntry(entries, socketId, i);
      } else {
        RemoveValueAt(entries, socketId, i);
      }
      log := log + [OnlineBroadcast()];
    }
  }

  /**
   * An example run, not a model of a source function, checked by its
   * assertions: a user opens a second connection without closing the
   * first; the late close of the first leaves the user online, the close
   * of the second takes the user offline.
   */
  method StaleCloseScenario()
  {
    var io := new PresenceServer();
    io.Connect("c1", Some("u1"));
    assert io.GetReceiverSocketId("u1") == Some("c1");
    io.Connect("c2", Some("u1"));
    assert io.GetReceiverSocketId("u1") == Some("c2");
    io.Disconnect("c1");
    assert io.GetReceiverSocketId("u1") == Some("c2");
    io.Route("u3", "friendRequest", RemovedBy("u1"));
    assert io.log == [io.log[0], io.log[1], io.log[2]];
    io.Disconnect("c2");
    assert io.GetReceiverSocketId("u1") == None;
  }
}

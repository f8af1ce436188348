/**
 * The friend endpoints of the server
 * (backend/src/controllers/friend.controller.js): sending a request,
 * answering one, removing a friend, and the three read queries.
 *
 * Each handler is one atomic step over the store `db` and the presence
 * server `io`; the caller is the authenticated user the route guard has
 * already loaded, so it is always a stored user. A response is its HTTP
 * status code. Identifiers the database would generate are parameters.
 */
module FriendController {
  import opened Common
  import opened Socket
  import opened Database

  // ---------------------------------------------------------------------
  // sendRequest

  /**
   * The status `sendRequest` answers with: 400 for a request to oneself,
   * 404 for an unknown target, 400 when the two are already friends or any
   * request (pending, accepted or declined) joins them in either
   * direction, and 201 otherwise.
   */
  function SendStatus(users: map<UserId, User>, requests: seq<FriendRequest>, from: UserId, to: UserId): (code: int)
    requires from in users
    ensures code == 201 || code == 400 || code == 404
    ensures code == 404 <==> from != to && to !in users
    ensures code == 201 <==> from != to && to in users && to !in users[from].friends && !RequestBetween(requests, from, to)
  {
    if from == to then 400
    else if to !in users then 404
    else if to in users[from].friends then 400
    else if RequestBetween(requests, from, to) then 400
    else 201
  }

  /** The record a successful `sendRequest` stores. */
  function NewPending(id: string, from: UserId, to: UserId): FriendRequest {
    FriendRequest(id, from, to, Pending)
  }

  /**
   * `sendRequest`: checks the guards in order; when all pass it stores one
   * pending request from the caller to the target and notifies the target
   * if the target is online. A refused request changes nothing.
   */
  method SendRequest(db: Db, io: PresenceServer, fromUserId: UserId, toUserId: UserId, newRequestId: string)
    returns (status: int, created: Option<FriendRequest>)
    requires db.Valid() && fromUserId in db.users
    requires forall i :: 0 <= i < |db.requests| ==> db.requests[i].id != newRequestId
    modifies db, io
    ensures db.Valid()
    ensures status == SendStatus(old(db.users), old(db.requests), fromUserId, toUserId)
    ensures db.users == old(db.users) && db.posts == old(db.posts)
    ensures io.userSocketMap == old(io.userSocketMap)
    ensures status != 201 ==> created.None? && db.requests == old(db.requests) && io.log == old(io.log)
    ensures status == 201 ==>
              && created == Some(NewPending(newRequestId, fromUserId, toUserId))
              && db.requests == old(db.requests) + [created.value]
              && io.log == old(io.log) + RouteOutput(io.userSocketMap, toUserId, "friendRequest", NewRequest(newRequestId, Card(db.users[fromUserId])))
  {
    if fromUserId == toUserId {
      return 400, None;
    }
    if toUserId !in db.users {
      return 404, None;
    }
    if toUserId in db.users[fromUserId].friends {
      return 400, None;
    }
    if RequestBetween(db.requests, fromUserId, toUserId) {
      return 400, None;
    }
    var request := NewPending(newRequestId, fromUserId, toUserId);
    NewRequestKeepsLog(db.users, db.requests, request);
    db.requests := db.requests + [request];
    io.Route(toUserId, "friendRequest", NewRequest(newRequestId, Card(db.users[fromUserId])));
    return 201, Some(request);
  }

  /**
   * Once a request joins two users, whatever its status, neither of them
   * can send the other a request again: a declined pair stays blocked,
   * and so does a pair whose accepted request outlived their friendship.
   */
  lemma {:induction false} RequestBlocksResend(users: map<UserId, User>, requests: seq<FriendRequest>, k: nat)
    requires RequestLog(users, requests)
    requires k < |requests|
    ensures SendStatus(users, requests, requests[k].from, requests[k].to) == 400
    ensures SendStatus(users, requests, requests[k].to, requests[k].from) == 400
  {
    var r := requests[k];
    assert RequestBetween(requests, r.from, r.to) by {
      assert requests[k].from == r.from && requests[k].to == r.to;
    }
    assert RequestBetween(requests, r.to, r.from) by {
      assert requests[k].from == r.from && requests[k].to == r.to;
    }
  }

  /** A successful send keeps the request log well formed, and the same pair is refused from then on. */
  lemma {:induction false} SendThenResendRefused(users: map<UserId, User>, requests: seq<FriendRequest>, from: UserId, to: UserId, id: string)
    requires FriendGraph(users) && RequestLog(users, requests) && from in users
    requires SendStatus(users, requests, from, to) == 201
    requires forall i :: 0 <= i < |requests| ==> requests[i].id != id
    ensures RequestLog(users, requests + [NewPending(id, from, to)])
    ensures SendStatus(users, requests + [NewPending(id, from, to)], from, to) == 400
    ensures to in users && SendStatus(users, requests + [NewPending(id, from, to)], to, from) == 400
  {
    var rs := requests + [NewPending(id, from, to)];
    NewRequestKeepsLog(users, requests, NewPending(id, from, to));
    RequestBlocksResend(users, rs, |requests|);
  }

  // ---------------------------------------------------------------------
  // respondRequest

  /** `FriendRequest.findById(requestId)`: the position of the request with that id. */
  function FindRequest(requests: seq<FriendRequest>, requestId: string): (k: Option<nat>)
    ensures k.Some? ==> k.value < |requests| && requests[k.value].id == requestId
    ensures k.None? <==> forall i :: 0 <= i < |requests| ==> requests[i].id != requestId
  {
    IndexWhere(requests, (r: FriendRequest) => r.id == requestId)
  }

  /**
   * The status `respondRequest` answers with: 404 when no request has that
   * id, 403 when the caller is not its recipient, 400 when it was already
   * answered, and 200 otherwise.
   */
  function RespondStatus(requests: seq<FriendRequest>, userId: UserId, requestId: string): (code: int)
    ensures code == 200 || code == 400 || code == 403 || code == 404
    ensures code == 404 <==> FindRequest(requests, requestId).None?
    ensures code == 403 ==> requests[FindRequest(requests, requestId).value].to != userId
    ensures code == 400 ==> var r := requests[FindRequest(requests, requestId).value]; r.to == userId && r.status != Pending
    ensures code == 200 ==> var r := requests[FindRequest(requests, requestId).value]; r.to == userId && r.status == Pending
  {
    match FindRequest(requests, requestId)
    case None => 404
    case Some(k) =>
      if requests[k].to != userId then 403
      else if requests[k].status != Pending then 400
      else 200
  }

  /** The status an answer gives a request. */
  function Answer(accept: bool): RequestStatus {
    if accept then Accepted else Declined
  }

  /**
   * `respondRequest`: only the recipient may answer, and only a pending
   * request. The request becomes accepted or declined; on accept each user
   * gains the other as a friend and the requester, if online, is told.
   * A refused answer changes nothing.
   */
  method RespondRequest(db: Db, io: PresenceServer, userId: UserId, requestId: string, accept: bool) returns (status: int)
    requires db.Valid() && userId in db.users
    modifies db, io
    ensures db.Valid()
    ensures status == RespondStatus(old(db.requests), userId, requestId)
    ensures db.posts == old(db.posts) && io.userSocketMap == old(io.userSocketMap)
    ensures status != 200 ==> db.users == old(db.users) && db.requests == old(db.requests) && io.log == old(io.log)
    ensures status == 200 ==>
              var k := FindRequest(old(db.requests), requestId).value;
              var from := old(db.requests)[k].from;
              && db.requests == old(db.requests)[k := old(db.requests)[k].(status := Answer(accept))]
              && db.users == (if accept then Befriend(old(db.users), from, userId) else old(db.users))
              && io.log == old(io.log) + (if accept then RouteOutput(io.userSocketMap, from, "friendRequestAccepted", RequestAccepted(requestId, Card(old(db.users)[userId]))) else [])
  {
    var found := FindRequest(db.requests, requestId);
    if found.None? {
      return 404;
    }
    var k := found.value;
    var request := db.requests[k];
    if request.to != userId {
      return 403;
    }
    if request.status != Pending {
      return 400;
    }
    var me := Card(db.users[userId]);
    db.SaveAnswer(k, Answer(accept));
    if accept {
      io.Route(request.from, "friendRequestAccepted", RequestAccepted(requestId, me));
    }
    return 200;
  }

  /**
   * Answering is a one-way step: once a request has been answered, every
   * further answer to it is refused with 400 (or 403 for anyone but its
   * recipient).
   */
  lemma {:induction false} AnswerIsFinal(users: map<UserId, User>, requests: seq<FriendRequest>, userId: UserId, requestId: string, accept: bool, caller: UserId)
    requires RequestLog(users, requests)
    requires RespondStatus(requests, userId, requestId) == 200
    ensures var k := FindRequest(requests, requestId).value;
            RespondStatus(requests[k := requests[k].(status := Answer(accept))], caller, requestId) == (if caller == userId then 400 else 403)
  {
    var k := FindRequest(requests, requestId).value;
    var rs := requests[k := requests[k].(status := Answer(accept))];
    forall i | 0 <= i < |rs| && i != k ensures rs[i].id != requestId {
      if i < k {
        assert requests[i].id != requests[k].id;
      } else if k < i {
        assert requests[k].id != requests[i].id;
      }
    }
    assert rs[k].id == requestId;
    assert FindRequest(rs, requestId) == Some(k);
  }

  /** Accepting a pending request makes its two users friends of each other. */
  lemma {:induction false} AcceptMakesFriends(users: map<UserId, User>, requests: seq<FriendRequest>, userId: UserId, requestId: string)
    requires FriendGraph(users) && RequestLog(users, requests)
    requires RespondStatus(requests, userId, requestId) == 200
    ensures var from := requests[FindRequest(requests, requestId).value].from;
            && from in users && userId in users
            && userId in Befriend(users, from, userId)[from].friends
            && from in Befriend(users, from, userId)[userId].friends
  {
    var k := FindRequest(requests, requestId).value;
    BefriendKeepsGraph(users, requests[k].from, requests[k].to);
  }

  // ---------------------------------------------------------------------
  // removeFriend

  /**
   * `removeFriend`: 400 unless the friend is in the caller's list;
   * otherwise each is pulled from the other's list and the removed friend,
   * if online, is told who removed them.
   */
  method RemoveFriend(db: Db, io: PresenceServer, userId: UserId, friendId: UserId) returns (status: int)
    requires db.Valid() && userId in db.users
    modifies db, io
    ensures db.Valid()
    ensures status == (if friendId in old(db.users)[userId].friends then 200 else 400)
    ensures db.requests == old(db.requests) && db.posts == old(db.posts) && io.userSocketMap == old(io.userSocketMap)
    ensures status == 400 ==> db.users == old(db.users) && io.log == old(io.log)
    ensures status == 200 ==>
              && db.users == Unfriend(old(db.users), userId, friendId)
              && io.log == old(io.log) + RouteOutput(io.userSocketMap, friendId, "friendRemoved", RemovedBy(userId))
  {
    if friendId !in db.users[userId].friends {
      return 400;
    }
    UnfriendKeepsGraph(db.users, userId, friendId);
    UnfriendKeepsLog(db.users, db.requests, userId, friendId);
    db.users := Unfriend(db.users, userId, friendId);
    io.Route(friendId, "friendRemoved", RemovedBy(userId));
    return 200;
  }

  /** `$pull` undoes an `$addToSet` of a new element. */
  lemma {:induction false} PullUndoesAdd(xs: seq<UserId>, x: UserId)
    requires x !in xs
    ensures Pull(AddToSet(xs, x), x) == xs
  {
    FilterConcat(xs, [x], y => y != x);
    FilterKeepsAll(xs, y => y != x);
  }

  /** For one user: the `$pull`s of an unfriend undo the `$addToSet`s of an accept that added new friends. */
  lemma {:induction false} UnfriendOneUndoesBefriendOne(key: UserId, x: User, a: UserId, b: UserId)
    requires a != b
    requires key == a ==> b !in x.friends
    requires key == b ==> a !in x.friends
    ensures UnfriendOne(key, BefriendOne(key, x, a, b), a, b) == x
  {
    if key == a {
      PullUndoesAdd(x.friends, b);
    } else if key == b {
      PullUndoesAdd(x.friends, a);
    }
  }

  /** Removing a friendship that an accept has just created restores every friend list exactly. */
  lemma {:induction false} UnfriendUndoesBefriend(users: map<UserId, User>, a: UserId, b: UserId)
    requires FriendGraph(users) && a in users && b in users && a != b
    requires b !in users[a].friends
    ensures Unfriend(Befriend(users, a, b), a, b) == users
  {
    assert Edge(users, b, a) ==> Edge(users, a, b);
    var m := Befriend(users, a, b);
    var r := Unfriend(m, a, b);
    forall u | u in users ensures r[u] == users[u] {
      UnfriendOneUndoesBefriendOne(u, users[u], a, b);
    }
  }

  // ---------------------------------------------------------------------
  // The read queries

  /**
   * `populate` of a list of user ids: the stored user for each id, in the
   * same order; ids with no stored user are dropped.
   */
  function Populate(users: map<UserId, User>, ids: seq<UserId>): (r: seq<User>)
    ensures |r| <= |ids|
    ensures forall x :: x in r ==> x.id in users && users[x.id] == x && x.id in ids
    ensures forall id :: id in ids && id in users && users[id].id == id ==> users[id] in r
    ensures (forall id :: id in ids ==> id in users && users[id].id == id) ==>
              |r| == |ids| && forall i :: 0 <= i < |ids| ==> r[i] == users[ids[i]]
  {
    if ids == [] then []
    else if ids[0] in users && users[ids[0]].id == ids[0] then [users[ids[0]]] + Populate(users, ids[1..])
    else Populate(users, ids[1..])
  }

  /** `getFriends`: the caller's friends as stored user records. */
  function GetFriends(users: map<UserId, User>, userId: UserId): (r: seq<User>)
    requires userId in users
    ensures forall x :: x in r ==> x.id in users[userId].friends && x.id in users && users[x.id] == x
  {
    Populate(users, users[userId].friends)
  }

  /**
   * In a well-formed store no friend is lost by `populate`: the list holds
   * the record of each friend id, in the order of the friend list.
   */
  lemma {:induction false} GetFriendsComplete(users: map<UserId, User>, userId: UserId)
    requires FriendGraph(users) && userId in users
    ensures |GetFriends(users, userId)| == |users[userId].friends|
    ensures forall f :: f in users[userId].friends ==> f in users && users[f] in GetFriends(users, userId)
    ensures forall i :: 0 <= i < |users[userId].friends| ==> GetFriends(users, userId)[i] == users[users[userId].friends[i]]
  {
    forall f | f in users[userId].friends ensures f in users && users[f].id == f {
      assert Edge(users, userId, f);
    }
  }

  /** `getRequests`: the pending requests addressed to the caller, in stored order. */
  function GetRequests(requests: seq<FriendRequest>, userId: UserId): (r: seq<FriendRequest>)
    ensures forall x :: x in r <==> x in requests && x.to == userId && x.status == Pending
    ensures forall x :: multiset(r)[x] == if x.to == userId && x.status == Pending then multiset(requests)[x] else 0
    ensures IsSubsequence(r, requests)
  {
    FilterCountsAndOrder(requests, (x: FriendRequest) => x.to == userId && x.status == Pending);
    Filter(requests, (x: FriendRequest) => x.to == userId && x.status == Pending)
  }

  /** `getSentRequests`: the pending requests the caller sent, in stored order. */
  function GetSentRequests(requests: seq<FriendRequest>, userId: UserId): (r: seq<FriendRequest>)
    ensures forall x :: x in r <==> x in requests && x.from == userId && x.status == Pending
    ensures forall x :: multiset(r)[x] == if x.from == userId && x.status == Pending then multiset(requests)[x] else 0
    ensures IsSubsequence(r, requests)
  {
    FilterCountsAndOrder(requests, (x: FriendRequest) => x.from == userId && x.status == Pending);
    Filter(requests, (x: FriendRequest) => x.from == userId && x.status == Pending)
  }

  /**
   * A sent request shows up in the target's incoming list and in the
   * sender's outgoing list; answering it removes it from both.
   */
  lemma {:induction false} QueriesTrackRequest(users: map<UserId, User>, requests: seq<FriendRequest>, from: UserId, to: UserId, id: string, accept: bool)
    requires RequestLog(users, requests + [NewPending(id, from, to)])
    ensures NewPending(id, from, to) in GetRequests(requests + [NewPending(id, from, to)], to)
    ensures NewPending(id, from, to) in GetSentRequests(requests + [NewPending(id, from, to)], from)
    ensures var rs := requests + [NewPending(id, from, to)];
            var answered := rs[|requests| := rs[|requests|].(status := Answer(accept))];
            && (forall x :: x in GetRequests(answered, to) ==> x.id != id)
            && (forall x :: x in GetSentRequests(answered, from) ==> x.id != id)
  {
    var rs := requests + [NewPending(id, from, to)];
    var k := |requests|;
    var answered := rs[k := rs[k].(status := Answer(accept))];
    assert rs[k] == NewPending(id, from, to);
    forall x | x in answered && x.status == Pending ensures x.id != id {
      var j :| 0 <= j < |answered| && answered[j] == x;
      assert j != k;
      assert rs[j].id != rs[k].id;
    }
  }
}

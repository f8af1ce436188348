/**
 * The document store the controllers read and write, as an in-memory
 * state: users with their `friends` arrays, the friend-request records,
 * and the posts. Queries and updates are single atomic steps.
 */
module Database {
  import opened Common
  import opened Socket

  datatype Role = Member | Admin

  datatype User = User(id: UserId, fullName: string, email: string, profilePic: string, role: Role, friends: seq<UserId>)

  datatype RequestStatus = Pending | Accepted | Declined

  /** A friend-request record. New records start `Pending`. */
  datatype FriendRequest = FriendRequest(id: string, from: UserId, to: UserId, status: RequestStatus)

  datatype Comment = Comment(userId: UserId, text: string, createdAt: int)

  /** A post; `userId` is its owner, `likes` the ids of the users who like it. */
  datatype Post = Post(id: string, userId: UserId, text: Option<string>, image: Option<string>, likes: seq<UserId>, comments: seq<Comment>)

  /** The `{ _id, fullName, profilePic }` summary the controllers put into events. */
  function Card(u: User): UserCard {
    UserCard(u.id, u.fullName, u.profilePic)
  }

  // ---------------------------------------------------------------------
  // Array updates used by the controllers

  /** `$addToSet`: appends `x` unless it is already there. */
  function AddToSet(xs: seq<UserId>, x: UserId): (r: seq<UserId>)
    ensures forall y :: y in r <==> y in xs || y == x
    ensures NoDup(xs) ==> NoDup(r)
    ensures x in xs ==> r == xs
    ensures x !in xs ==> r == xs + [x]
  {
    if x in xs then xs
    else
      assert multiset(xs + [x]) == multiset(xs) + multiset{x};
      xs + [x]
  }

  /** `$pull`: removes every occurrence of `x` and keeps the rest in order. */
  function Pull(xs: seq<UserId>, x: UserId): (r: seq<UserId>)
    ensures forall y :: y in r <==> y in xs && y != x
    ensures forall y :: y != x ==> multiset(r)[y] == multiset(xs)[y]
    ensures IsSubsequence(r, xs)
    ensures NoDup(xs) ==> NoDup(r)
  {
    FilterCountsAndOrder(xs, y => y != x);
    Filter(xs, y => y != x)
  }

  // ---------------------------------------------------------------------
  // The friendship graph

  /**
   * Each user is stored under its own id, lists no friend twice and never
   * itself, and friendship is symmetric between stored users.
   */
  ghost predicate FriendGraph(users: map<UserId, User>) {
    && (forall u :: u in users ==> users[u].id == u && NoDup(users[u].friends) && u !in users[u].friends)
    && (forall u, f :: Edge(users, u, f) ==> Edge(users, f, u))
  }

  /** `u` is a stored user whose friend list holds `f`. */
  predicate Edge(users: map<UserId, User>, u: UserId, f: UserId) {
    u in users && f in users[u].friends
  }

  /** One user's record after `$addToSet` of `b` into `a`'s friends and of `a` into `b`'s, both applied to `key`'s record. */
  function BefriendOne(key: UserId, x: User, a: UserId, b: UserId): (y: User)
    ensures y.id == x.id && (NoDup(x.friends) ==> NoDup(y.friends))
    ensures forall f :: f in y.friends <==> f in x.friends || (key == a && f == b) || (key == b && f == a)
    ensures key != a && key != b ==> y == x
  {
    var f1 := if key == a then AddToSet(x.friends, b) else x.friends;
    x.(friends := if key == b then AddToSet(f1, a) else f1)
  }

  /** Accepting a request: `$addToSet` on both users' `friends`. */
  function Befriend(users: map<UserId, User>, a: UserId, b: UserId): (r: map<UserId, User>)
    ensures r.Keys == users.Keys
    ensures forall u :: u in users ==> r[u] == BefriendOne(u, users[u], a, b)
  {
    map u | u in users :: BefriendOne(u, users[u], a, b)
  }

  /** One user's record after `$pull` of `b` from `a`'s friends and of `a` from `b`'s, both applied to `key`'s record. */
  function UnfriendOne(key: UserId, x: User, a: UserId, b: UserId): (y: User)
    ensures y.id == x.id && (NoDup(x.friends) ==> NoDup(y.friends))
    ensures forall f :: f in y.friends <==> f in x.friends && !(key == a && f == b) && !(key == b && f == a)
    ensures key != a && key != b ==> y == x
  {
    var f1 := if key == a then Pull(x.friends, b) else x.friends;
    x.(friends := if key == b then Pull(f1, a) else f1)
  }

  /** Removing a friend: `$pull` on both users' `friends`. */
  function Unfriend(users: map<UserId, User>, a: UserId, b: UserId): (r: map<UserId, User>)
    ensures r.Keys == users.Keys
    ensures forall u :: u in users ==> r[u] == UnfriendOne(u, users[u], a, b)
  {
    map u | u in users :: UnfriendOne(u, users[u], a, b)
  }

  /** One friendship edge after befriending: it was there before, or it joins `a` and `b`; either way its reverse is there too. */
  lemma {:induction false} BefriendEdge(users: map<UserId, User>, a: UserId, b: UserId, u: UserId, f: UserId)
    requires u in users && a in users && b in users
    requires f in users[u].friends ==> f in users && u in users[f].friends
    requires f in BefriendOne(u, users[u], a, b).friends
    ensures f in users && u in BefriendOne(f, users[f], a, b).friends
  {
  }

  /** One friendship edge after unfriending: it was there before, and so was its reverse, which survives. */
  lemma {:induction false} UnfriendEdge(users: map<UserId, User>, a: UserId, b: UserId, u: UserId, f: UserId)
    requires u in users
    requires f in users[u].friends ==> f in users && u in users[f].friends
    requires f in UnfriendOne(u, users[u], a, b).friends
    ensures f in users && u in UnfriendOne(f, users[f], a, b).friends
  {
  }

  /**
   * Befriending two distinct stored users keeps the graph symmetric and
   * duplicate-free, makes them friends, and changes no other user's list.
   */
  lemma {:induction false} BefriendKeepsGraph(users: map<UserId, User>, a: UserId, b: UserId)
    requires FriendGraph(users) && a in users && b in users && a != b
    ensures FriendGraph(Befriend(users, a, b))
    ensures b in Befriend(users, a, b)[a].friends && a in Befriend(users, a, b)[b].friends
    ensures forall u :: u in users && u != a && u != b ==> Befriend(users, a, b)[u] == users[u]
  {
    var r := Befriend(users, a, b);
    forall u | u in r ensures r[u].id == u && NoDup(r[u].friends) && u !in r[u].friends {
      assert r[u] == BefriendOne(u, users[u], a, b);
    }
    forall u, f | Edge(r, u, f) ensures Edge(r, f, u) {
      assert Edge(users, u, f) ==> Edge(users, f, u);
      BefriendEdge(users, a, b, u, f);
    }
  }

  /**
   * Unfriending keeps the graph symmetric and duplicate-free, leaves the
   * two users strangers, and changes no other user's list.
   */
  lemma {:induction false} UnfriendKeepsGraph(users: map<UserId, User>, a: UserId, b: UserId)
    requires FriendGraph(users) && a in users
    ensures FriendGraph(Unfriend(users, a, b))
    ensures b !in Unfriend(users, a, b)[a].friends
    ensures b in users ==> a !in Unfriend(users, a, b)[b].friends
    ensures forall u :: u in users && u != a && u != b ==> Unfriend(users, a, b)[u] == users[u]
  {
    var r := Unfriend(users, a, b);
    forall u | u in r ensures r[u].id == u && NoDup(r[u].friends) && u !in r[u].friends {
      assert r[u] == UnfriendOne(u, users[u], a, b);
    }
    forall u, f | Edge(r, u, f) ensures Edge(r, f, u) {
      assert Edge(users, u, f) ==> Edge(users, f, u);
      UnfriendEdge(users, a, b, u, f);
    }
  }

  // ---------------------------------------------------------------------
  // The friend-request records

  /** Two requests concern the same pair of users, in either direction. */
  predicate SamePair(r: FriendRequest, s: FriendRequest) {
    (r.from == s.from && r.to == s.to) || (r.from == s.to && r.to == s.from)
  }

  /** Some request, whatever its status, joins `a` and `b` in either direction. */
  predicate RequestBetween(requests: seq<FriendRequest>, a: UserId, b: UserId) {
    exists i :: 0 <= i < |requests| && ((requests[i].from == a && requests[i].to == b) || (requests[i].from == b && requests[i].to == a))
  }

  /**
   * Requests join two distinct stored users, have distinct ids, at most one
   * request joins a pair, and a pending request never joins two friends.
   */
  ghost predicate RequestLog(users: map<UserId, User>, requests: seq<FriendRequest>) {
    && (forall i :: 0 <= i < |requests| ==> requests[i].from in users && requests[i].to in users && requests[i].from != requests[i].to)
    && (forall i, j :: 0 <= i < j < |requests| ==> requests[i].id != requests[j].id && !SamePair(requests[i], requests[j]))
    && (forall i :: 0 <= i < |requests| && requests[i].status == Pending ==> requests[i].to !in users[requests[i].from].friends)
  }

  /** Adding a pending request for a pair of strangers with no request between them keeps the log well formed. */
  lemma NewRequestKeepsLog(users: map<UserId, User>, requests: seq<FriendRequest>, r: FriendRequest)
    requires FriendGraph(users) && RequestLog(users, requests)
    requires r.from in users && r.to in users && r.from != r.to && r.status == Pending
    requires r.to !in users[r.from].friends
    requires !RequestBetween(requests, r.from, r.to)
    requires forall i :: 0 <= i < |requests| ==> requests[i].id != r.id
    ensures RequestLog(users, requests + [r])
  {
    var rs := requests + [r];
    forall i, j | 0 <= i < j < |rs| ensures rs[i].id != rs[j].id && !SamePair(rs[i], rs[j]) {
      if j == |requests| {
        assert rs[i] == requests[i] && rs[j] == r;
      }
    }
  }

  /**
   * Another pending request still joins two users who are not friends after
   * the request at `k` is accepted: it cannot join the same pair.
   */
  lemma {:induction false} AcceptKeepsOtherPending(users: map<UserId, User>, requests: seq<FriendRequest>, k: nat, i: nat)
    requires RequestLog(users, requests)
    requires k < |requests| && i < |requests| && i != k && requests[i].status == Pending
    ensures requests[i].to !in Befriend(users, requests[k].from, requests[k].to)[requests[i].from].friends
  {
    var a, b := requests[k].from, requests[k].to;
    var f := requests[i].from;
    assert !SamePair(requests[i], requests[k]) by {
      if i < k { } else { }
    }
    assert Befriend(users, a, b)[f] == BefriendOne(f, users[f], a, b);
  }

  /** Accepting the pending request at `k` keeps the request log well formed. */
  lemma {:induction false} AcceptKeepsRequestLog(users: map<UserId, User>, requests: seq<FriendRequest>, k: nat)
    requires RequestLog(users, requests)
    requires k < |requests|
    ensures RequestLog(Befriend(users, requests[k].from, requests[k].to), requests[k := requests[k].(status := Accepted)])
  {
    var u2 := Befriend(users, requests[k].from, requests[k].to);
    var rs := requests[k := requests[k].(status := Accepted)];
    forall i | 0 <= i < |rs| ensures rs[i].from in u2 && rs[i].to in u2 && rs[i].from != rs[i].to {
      assert rs[i].from == requests[i].from && rs[i].to == requests[i].to;
    }
    forall i, j | 0 <= i < j < |rs| ensures rs[i].id != rs[j].id && !SamePair(rs[i], rs[j]) {
      assert rs[i].id == requests[i].id && rs[i].from == requests[i].from && rs[i].to == requests[i].to;
      assert rs[j].id == requests[j].id && rs[j].from == requests[j].from && rs[j].to == requests[j].to;
    }
    forall i | 0 <= i < |rs| && rs[i].status == Pending ensures rs[i].to !in u2[rs[i].from].friends {
      AcceptKeepsOtherPending(users, requests, k, i);
    }
  }

  /**
   * Accepting the pending request at `k` makes its two users friends and
   * keeps the graph and the request log well formed.
   */
  lemma AcceptKeepsLog(users: map<UserId, User>, requests: seq<FriendRequest>, k: nat)
    requires FriendGraph(users) && RequestLog(users, requests)
    requires k < |requests| && requests[k].status == Pending
    ensures FriendGraph(Befriend(users, requests[k].from, requests[k].to))
    ensures RequestLog(Befriend(users, requests[k].from, requests[k].to), requests[k := requests[k].(status := Accepted)])
  {
    BefriendKeepsGraph(users, requests[k].from, requests[k].to);
    AcceptKeepsRequestLog(users, requests, k);
  }

  /** Declining the pending request at `k` keeps the request log well formed. */
  lemma DeclineKeepsLog(users: map<UserId, User>, requests: seq<FriendRequest>, k: nat)
    requires RequestLog(users, requests)
    requires k < |requests|
    ensures RequestLog(users, requests[k := requests[k].(status := Declined)])
  {
  }

  /** Removing a friendship keeps the request log well formed. */
  lemma UnfriendKeepsLog(users: map<UserId, User>, requests: seq<FriendRequest>, a: UserId, b: UserId)
    requires FriendGraph(users) && RequestLog(users, requests) && a in users
    ensures RequestLog(Unfriend(users, a, b), requests)
  {
    UnfriendKeepsGraph(users, a, b);
  }

  // ---------------------------------------------------------------------
  // The store

  /** Post ids are unique. */
  ghost predicate DistinctPostIds(posts: seq<Post>) {
    forall i, j :: 0 <= i < j < |posts| ==> posts[i].id != posts[j].id
  }

  class Db {
    var users: map<UserId, User>
    var requests: seq<FriendRequest>
    /** Newest first: the order of the `createdAt` sort the feed query uses. */
    var posts: seq<Post>

    ghost predicate Valid()
      reads this
    {
      FriendGraph(users) && RequestLog(users, requests) && DistinctPostIds(posts)
    }

    /** A store holding some registered users and nothing else. */
    constructor (registered: map<UserId, User>)
      requires FriendGraph(registered)
      ensures Valid()
      ensures users == registered && requests == [] && posts == []
    {
      users := registered;
      requests := [];
      posts := [];
    }

    /**
     * Saving the answer to the pending request at `k`: its status becomes
     * `answer`, and on acceptance both users gain each other as friends.
     */
    method SaveAnswer(k: nat, answer: RequestStatus)
      requires Valid()
      requires k < |requests| && requests[k].status == Pending && answer != Pending
      modifies this
      ensures Valid()
      ensures requests == old(requests)[k := old(requests)[k].(status := answer)]
      ensures users == if answer == Accepted then Befriend(old(users), old(requests)[k].from, old(requests)[k].to) else old(users)
      ensures posts == old(posts)
    {
      if answer == Accepted {
        AcceptKeepsLog(users, requests, k);
        users := Befriend(users, requests[k].from, requests[k].to);
      } else {
        DeclineKeepsLog(users, requests, k);
      }
      requests := requests[k := requests[k].(status := answer)];
    }
  }
}

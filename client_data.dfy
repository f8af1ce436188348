/**
 * The records the browser client holds, as they arrive from the server:
 * user profiles (`_id`, `fullName`, `email`, `profilePic`) and friend
 * requests whose `from` or `to` side may have been filled in with a
 * profile.
 */
module ClientData {
  import opened Common

  /** A user as the client lists it. */
  datatype Person = Person(id: UserId, fullName: string, email: string, profilePic: string)

  /**
   * A friend request as the client holds it. Stored records carry their
   * `_id`; the one the `friendRequest` event delivers does not. Either side
   * is a profile when the server filled it in.
   */
  datatype RequestView = RequestView(id: Option<string>, from: Option<Person>, to: Option<Person>)

  /** `xs.some(x => x._id === id)`. */
  predicate HasId(xs: seq<Person>, id: UserId) {
    exists i :: 0 <= i < |xs| && xs[i].id == id
  }

  /** `onlineUsers.includes(userId)`: the presence check every page uses. */
  predicate IsUserOnline(onlineUsers: seq<UserId>, userId: UserId) {
    userId in onlineUsers
  }

  /** `xs.filter(x => x._id !== id)`: everyone but `id`, in order. */
  function WithoutId(xs: seq<Person>, id: UserId): (r: seq<Person>)
    ensures forall p :: p in r <==> p in xs && p.id != id
    ensures !HasId(r, id)
    ensures forall p :: multiset(r)[p] == if p.id != id then multiset(xs)[p] else 0
    ensures IsSubsequence(r, xs)
  {
    FilterCountsAndOrder(xs, (p: Person) => p.id != id);
    var r := Filter(xs, (p: Person) => p.id != id);
    assert forall i :: 0 <= i < |r| ==> r[i] in r;
    r
  }

  /** Removing an id nobody in the list has changes nothing; removing it twice is removing it once. */
  lemma {:induction false} WithoutIdAbsent(xs: seq<Person>, id: UserId)
    ensures !HasId(xs, id) ==> WithoutId(xs, id) == xs
    ensures WithoutId(WithoutId(xs, id), id) == WithoutId(xs, id)
  {
    if !HasId(xs, id) {
      FilterKeepsAll(xs, (p: Person) => p.id != id);
    }
    FilterIdempotent(xs, (p: Person) => p.id != id);
  }
}

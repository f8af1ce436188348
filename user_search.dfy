/**
 * The user search box (frontend/src/Components/UserSearch.jsx): the
 * search-as-you-type filter over all users and the relationship badge
 * shown beside each result.
 */
module UserSearch {
  import opened Common
  import opened ClientData
  import FriendsWidget

  /** A user matches when the lower-cased name or email contains the lower-cased query, taken untrimmed. */
  predicate UserMatches(u: Person, query: string) {
    Includes(Lower(u.fullName), Lower(query)) || Includes(Lower(u.email), Lower(query))
  }

  /** The results for a query: every matching user other than the signed-in one, in list order. */
  function SearchUsers(users: seq<Person>, me: UserId, query: string): (r: seq<Person>)
    ensures forall u :: u in r <==> u in users && u.id != me && UserMatches(u, query)
    ensures !HasId(r, me)
    ensures forall u :: multiset(r)[u] == if u.id != me && UserMatches(u, query) then multiset(users)[u] else 0
    ensures IsSubsequence(r, users)
  {
    FilterCountsAndOrder(users, (u: Person) => u.id != me && UserMatches(u, query));
    var r := Filter(users, (u: Person) => u.id != me && UserMatches(u, query));
    assert forall i :: 0 <= i < |r| ==> r[i] in r;
    r
  }

  /**
   * For a non-empty query this box and the friends sidebar's search agree
   * on every user: the sidebar's guard against an empty email changes
   * nothing, because an empty text contains no non-empty query.
   */
  lemma SameMatchAsSidebar(u: Person, query: string)
    requires query != ""
    ensures UserMatches(u, query) <==> FriendsWidget.MatchesQuery(u, query)
  {
    if u.email == "" {
      assert Lower(u.email) == "";
      assert |Lower(query)| > 0;
      assert forall i :: !OccursAt(Lower(u.email), Lower(query), i);
    }
  }

  /** `isUserFriend`: some friend has that id. */
  predicate IsUserFriend(friends: seq<Person>, userId: UserId) {
    HasId(friends, userId)
  }

  /** `hasPendingRequest`: some sent request has a filled-in target with that id. */
  predicate HasPendingRequest(sentRequests: seq<RequestView>, userId: UserId) {
    exists i :: 0 <= i < |sentRequests| && sentRequests[i].to.Some? && sentRequests[i].to.value.id == userId
  }

  datatype Badge = FriendsBadge | RequestSentBadge | AddFriendButton

  /** The badge beside a result, by priority: friends, then request sent, then the add button. */
  function BadgeFor(friends: seq<Person>, sentRequests: seq<RequestView>, userId: UserId): (b: Badge)
    ensures b == FriendsBadge <==> IsUserFriend(friends, userId)
    ensures b == RequestSentBadge <==> !IsUserFriend(friends, userId) && HasPendingRequest(sentRequests, userId)
    ensures b == AddFriendButton <==> !IsUserFriend(friends, userId) && !HasPendingRequest(sentRequests, userId)
  {
    if IsUserFriend(friends, userId) then FriendsBadge
    else if HasPendingRequest(sentRequests, userId) then RequestSentBadge
    else AddFriendButton
  }

  class UserSearch {
    var searchQuery: string
    var searchResults: seq<Person>
    var isSearching: bool

    /** The box is never left in its searching state between events. */
    ghost predicate Valid()
      reads this
    {
      !isSearching
    }

    constructor ()
      ensures Valid()
      ensures searchQuery == "" && searchResults == []
    {
      searchQuery := "";
      searchResults := [];
      isSearching := false;
    }

    /**
     * `handleSearchChange`: the query is kept as typed; a blank query clears
     * the results, any other query replaces them with its matches.
     */
    method HandleSearchChange(query: string, users: seq<Person>, me: UserId)
      requires Valid()
      modifies this
      ensures Valid()
      ensures searchQuery == query
      ensures Trim(query) == "" ==> searchResults == []
      ensures Trim(query) != "" ==> searchResults == SearchUsers(users, me, query)
    {
      searchQuery := query;
      if Trim(query) == "" {
        searchResults := [];
        return;
      }
      isSearching := true;
      searchResults := SearchUsers(users, me, query);
      isSearching := false;
    }
  }
}

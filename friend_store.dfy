/**
 * The client's friend store (frontend/src/store/useFriendStore.js): the
 * friend list, the incoming and outgoing pending requests, and a `loading`
 * flag, updated by request actions and by the friend events the socket
 * delivers.
 *
 * Every server call is an input: `Some(data)` is a successful response
 * and `None` a failed one. An action runs to completion as one step, so
 * the store is observed only after `loading` has been reset.
 */
module FriendStore {
  import opened Common
  import opened ClientData

  class FriendStore {
    var friends: seq<Person>
    var friendRequests: seq<RequestView>
    var sentRequests: seq<RequestView>
    var loading: bool

    constructor ()
      ensures friends == [] && friendRequests == [] && sentRequests == [] && !loading
    {
      friends := [];
      friendRequests := [];
      sentRequests := [];
      loading := false;
    }

    /** `fetchFriends`: replaces the list with the server's on success; returns `[]` and keeps it on failure. */
    method FetchFriends(response: Option<seq<Person>>) returns (data: seq<Person>)
      modifies this
      ensures response.Some? ==> friends == response.value && data == response.value
      ensures response.None? ==> friends == old(friends) && data == []
      ensures friendRequests == old(friendRequests) && sentRequests == old(sentRequests)
      ensures !loading
    {
      loading := true;
      if response.Some? {
        friends := response.value;
        loading := false;
        return response.value;
      }
      loading := false;
      return [];
    }

    /** `fetchFriendRequests`: the same discipline for the incoming requests. */
    method FetchFriendRequests(response: Option<seq<RequestView>>) returns (data: seq<RequestView>)
      modifies this
      ensures response.Some? ==> friendRequests == response.value && data == response.value
      ensures response.None? ==> friendRequests == old(friendRequests) && data == []
      ensures friends == old(friends) && sentRequests == old(sentRequests)
      ensures !loading
    {
      loading := true;
      if response.Some? {
        friendRequests := response.value;
        loading := false;
        return response.value;
      }
      loading := false;
      return [];
    }

    /** `fetchSentRequests`: the same discipline for the outgoing requests. */
    method FetchSentRequests(response: Option<seq<RequestView>>) returns (data: seq<RequestView>)
      modifies this
      ensures response.Some? ==> sentRequests == response.value && data == response.value
      ensures response.None? ==> sentRequests == old(sentRequests) && data == []
      ensures friends == old(friends) && friendRequests == old(friendRequests)
      ensures !loading
    {
      loading := true;
      if response.Some? {
        sentRequests := response.value;
        loading := false;
        return response.value;
      }
      loading := false;
      return [];
    }

    /**
     * `sendFriendRequest`: an empty target id fails before any call. On
     * success the outgoing list is refreshed (`refreshed` is that second
     * call's answer) and the new request is returned; any failure returns
     * `None`. Incoming requests and friends never change.
     */
    method SendFriendRequest(toUserId: Option<string>, response: Option<RequestView>, refreshed: Option<seq<RequestView>>)
      returns (result: Option<RequestView>)
      modifies this
      ensures !loading
      ensures friends == old(friends) && friendRequests == old(friendRequests)
      ensures !Truthy(toUserId) || response.None? ==> result.None? && sentRequests == old(sentRequests)
      ensures Truthy(toUserId) && response.Some? ==>
                && result == response
                && sentRequests == (if refreshed.Some? then refreshed.value else old(sentRequests))
    {
      loading := true;
      if !Truthy(toUserId) || response.None? {
        loading := false;
        return None;
      }
      var _ := FetchSentRequests(refreshed);
      loading := false;
      return response;
    }

    /**
     * `respondToFriendRequest`: on success both the incoming requests and
     * the friends are refreshed and the server's message is returned; a
     * failure returns `None` and changes no list.
     */
    method RespondToFriendRequest(response: Option<string>, requestsRefresh: Option<seq<RequestView>>, friendsRefresh: Option<seq<Person>>)
      returns (result: Option<string>)
      modifies this
      ensures !loading && result == response
      ensures sentRequests == old(sentRequests)
      ensures response.None? ==> friends == old(friends) && friendRequests == old(friendRequests)
      ensures response.Some? ==>
                && friendRequests == (if requestsRefresh.Some? then requestsRefresh.value else old(friendRequests))
                && friends == (if friendsRefresh.Some? then friendsRefresh.value else old(friends))
    {
      loading := true;
      if response.None? {
        loading := false;
        return None;
      }
      var _ := FetchFriendRequests(requestsRefresh);
      var _ := FetchFriends(friendsRefresh);
      loading := false;
      return response;
    }

    /** `removeFriend`: on success every friend with that id leaves the list, the others stay in order. */
    method RemoveFriend(friendId: UserId, response: Option<string>) returns (result: Option<string>)
      modifies this
      ensures !loading && result == response
      ensures friendRequests == old(friendRequests) && sentRequests == old(sentRequests)
      ensures response.None? ==> friends == old(friends)
      ensures response.Some? ==> friends == WithoutId(old(friends), friendId)
    {
      loading := true;
      if response.None? {
        loading := false;
        return None;
      }
      friends := WithoutId(friends, friendId);
      loading := false;
      return response;
    }

    /** The `friendRequest` event: the delivered request is appended to the incoming list. */
    method HandleNewFriendRequest(request: RequestView)
      modifies this
      ensures friendRequests == old(friendRequests) + [request]
      ensures friends == old(friends) && sentRequests == old(sentRequests) && loading == old(loading)
    {
      friendRequests := friendRequests + [request];
    }

    /** The `friendRequestAccepted` event: friends and outgoing requests are fetched again. */
    method HandleFriendRequestAccepted(friendsRefresh: Option<seq<Person>>, sentRefresh: Option<seq<RequestView>>)
      modifies this
      ensures !loading && friendRequests == old(friendRequests)
      ensures friends == (if friendsRefresh.Some? then friendsRefresh.value else old(friends))
      ensures sentRequests == (if sentRefresh.Some? then sentRefresh.value else old(sentRequests))
    {
      var _ := FetchFriends(friendsRefresh);
      var _ := FetchSentRequests(sentRefresh);
    }

    /** The `friendRemoved` event: the friend who removed this user leaves the list. */
    method HandleFriendRemoved(userId: UserId)
      modifies this
      ensures friends == WithoutId(old(friends), userId)
      ensures friendRequests == old(friendRequests) && sentRequests == old(sentRequests) && loading == old(loading)
    {
      friends := WithoutId(friends, userId);
    }
  }
}

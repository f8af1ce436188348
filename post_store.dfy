/**
 * The client's post store (frontend/src/store/usePostStore.js): the loaded
 * part of the feed, its pagination counters and two busy flags.
 *
 * Every server call is an input: `Some(data)` is a successful response
 * and `None` a failed one. The post records are those the server sends.
 */
module PostStore {
  import opened Common
  import opened Database
  import opened PostController

  datatype Pagination = Pagination(currentPage: int, totalPages: int, totalPosts: int)

  /** The pagination a fresh or reset store starts from. */
  const InitialPagination := Pagination(1, 1, 0)

  /**
   * The like update applied to the loaded feed: in every post with that id
   * the user's id is appended when the server says the post is now liked,
   * and every occurrence of it is removed otherwise. Other posts are kept.
   */
  function UpdateLikes(posts: seq<Post>, postId: string, liked: bool, u: UserId): (r: seq<Post>)
    ensures |r| == |posts|
    ensures forall i :: 0 <= i < |posts| && posts[i].id != postId ==> r[i] == posts[i]
    ensures forall i :: 0 <= i < |posts| && posts[i].id == postId ==>
              && r[i] == posts[i].(likes := r[i].likes)
              && (u in r[i].likes <==> liked)
              && (forall v :: v != u ==> (v in r[i].likes <==> v in posts[i].likes))
              && (liked ==> r[i].likes == posts[i].likes + [u])
              && (!liked ==> r[i].likes == Pull(posts[i].likes, u))
  {
    seq(|posts|, i requires 0 <= i < |posts| =>
      if posts[i].id == postId then posts[i].(likes := if liked then posts[i].likes + [u] else Pull(posts[i].likes, u))
      else posts[i])
  }

  /**
   * When the loaded copy of a post agrees with the server's, the client's
   * like update produces the same likes as the server's toggle.
   */
  lemma ClientLikeMatchesServer(posts: seq<Post>, k: nat, u: UserId)
    requires k < |posts|
    ensures var liked := u !in posts[k].likes;
            UpdateLikes(posts, posts[k].id, liked, u)[k].likes == ToggleLike(posts[k].likes, u)
  {
  }

  /** Liking and then unliking a post the user did not like restores the loaded feed exactly. */
  lemma {:induction false} LikeThenUnlikeRestores(posts: seq<Post>, postId: string, u: UserId)
    requires forall i :: 0 <= i < |posts| && posts[i].id == postId ==> u !in posts[i].likes
    ensures UpdateLikes(UpdateLikes(posts, postId, true, u), postId, false, u) == posts
  {
    var r := UpdateLikes(UpdateLikes(posts, postId, true, u), postId, false, u);
    forall i | 0 <= i < |posts| ensures r[i] == posts[i] {
      if posts[i].id == postId {
        ToggleTwice(posts[i].likes, u);
      }
    }
  }

  /** The comment update: the returned comment is appended to every post with that id, and only there. */
  function AppendComment(posts: seq<Post>, postId: string, c: Comment): (r: seq<Post>)
    ensures |r| == |posts|
    ensures forall i :: 0 <= i < |posts| ==> r[i].id == posts[i].id
    ensures forall i :: 0 <= i < |posts| && posts[i].id != postId ==> r[i] == posts[i]
    ensures forall i :: 0 <= i < |posts| && posts[i].id == postId ==>
              && r[i] == posts[i].(comments := r[i].comments)
              && |r[i].comments| == |posts[i].comments| + 1
              && r[i].comments[..|posts[i].comments|] == posts[i].comments
              && r[i].comments[|posts[i].comments|] == c
  {
    seq(|posts|, i requires 0 <= i < |posts| =>
      if posts[i].id == postId then posts[i].(comments := posts[i].comments + [c]) else posts[i])
  }

  /** The delete update: every post with that id leaves the loaded feed, the others stay in order. */
  function WithoutPost(posts: seq<Post>, postId: string): (r: seq<Post>)
    ensures forall p :: p in r <==> p in posts && p.id != postId
    ensures forall p :: multiset(r)[p] == if p.id != postId then multiset(posts)[p] else 0
    ensures IsSubsequence(r, posts)
  {
    FilterCountsAndOrder(posts, (p: Post) => p.id != postId);
    Filter(posts, (p: Post) => p.id != postId)
  }

  class PostStore {
    var posts: seq<Post>
    var isLoading: bool
    var isCreatingPost: bool
    var pagination: Pagination

    constructor ()
      ensures posts == [] && !isLoading && !isCreatingPost && pagination == InitialPagination
    {
      posts := [];
      isLoading := false;
      isCreatingPost := false;
      pagination := InitialPagination;
    }

    /** `getPosts`: the answer replaces the posts and the pagination wholesale; a failure keeps both. */
    method GetPosts(response: Option<FeedPage>)
      modifies this
      ensures !isLoading && isCreatingPost == old(isCreatingPost)
      ensures response.None? ==> posts == old(posts) && pagination == old(pagination)
      ensures response.Some? ==>
                && posts == response.value.posts
                && pagination == Pagination(response.value.currentPage, response.value.totalPages, response.value.totalPosts)
    {
      isLoading := true;
      if response.Some? {
        posts := response.value.posts;
        pagination := Pagination(response.value.currentPage, response.value.totalPages, response.value.totalPosts);
      }
      isLoading := false;
    }

    /**
     * `createPost`: the created post goes to the head of the loaded feed and
     * the total grows by one; a failure returns `None` and changes nothing.
     */
    method CreatePost(response: Option<Post>) returns (result: Option<Post>)
      modifies this
      ensures !isCreatingPost && isLoading == old(isLoading) && result == response
      ensures response.None? ==> posts == old(posts) && pagination == old(pagination)
      ensures response.Some? ==>
                && posts == [response.value] + old(posts)
                && pagination == old(pagination).(totalPosts := old(pagination).totalPosts + 1)
    {
      isCreatingPost := true;
      if response.Some? {
        posts := [response.value] + posts;
        pagination := pagination.(totalPosts := pagination.totalPosts + 1);
      }
      isCreatingPost := false;
      return response;
    }

    /**
     * `likePost` with the signed-in user `authUserId`: the server's `liked`
     * answer decides whether that id is appended to or removed from the
     * matching posts.
     */
    method LikePost(postId: string, authUserId: UserId, liked: Option<bool>) returns (result: Option<bool>)
      modifies this
      ensures result == liked
      ensures isLoading == old(isLoading) && isCreatingPost == old(isCreatingPost) && pagination == old(pagination)
      ensures liked.None? ==> posts == old(posts)
      ensures liked.Some? ==> posts == UpdateLikes(old(posts), postId, liked.value, authUserId)
    {
      if liked.Some? {
        posts := UpdateLikes(posts, postId, liked.value, authUserId);
      }
      return liked;
    }

    /** `addComment`: the comment the server returns is appended to the matching posts. */
    method AddComment(postId: string, response: Option<Comment>) returns (result: Option<Comment>)
      modifies this
      ensures result == response
      ensures isLoading == old(isLoading) && isCreatingPost == old(isCreatingPost) && pagination == old(pagination)
      ensures response.None? ==> posts == old(posts)
      ensures response.Some? ==> posts == AppendComment(old(posts), postId, response.value)
    {
      if response.Some? {
        posts := AppendComment(posts, postId, response.value);
      }
      return response;
    }

    /**
     * `deletePost`: on success the post leaves the loaded feed and the total
     * drops by one, whether or not the post was loaded; the answer says
     * whether the server accepted.
     */
    method DeletePost(postId: string, accepted: bool) returns (ok: bool)
      modifies this
      ensures ok == accepted
      ensures isLoading == old(isLoading) && isCreatingPost == old(isCreatingPost)
      ensures !accepted ==> posts == old(posts) && pagination == old(pagination)
      ensures accepted ==>
                && posts == WithoutPost(old(posts), postId)
                && pagination == old(pagination).(totalPosts := old(pagination).totalPosts - 1)
    {
      if !accepted {
        return false;
      }
      posts := WithoutPost(posts, postId);
      pagination := pagination.(totalPosts := pagination.totalPosts - 1);
      return true;
    }

    /**
     * `loadMorePosts`: does nothing once the last known page is loaded.
     * Otherwise it asks for the next page (returned as `requested`) with a
     * limit of 10, appends the answer's posts after the loaded ones and takes
     * the answer's pagination.
     */
    method LoadMorePosts(response: Option<FeedPage>) returns (requested: Option<int>)
      modifies this
      ensures isCreatingPost == old(isCreatingPost)
      ensures old(pagination).currentPage >= old(pagination).totalPages ==>
                requested.None? && posts == old(posts) && pagination == old(pagination) && isLoading == old(isLoading)
      ensures old(pagination).currentPage < old(pagination).totalPages ==>
                && requested == Some(old(pagination).currentPage + 1)
                && !isLoading
                && (response.None? ==> posts == old(posts) && pagination == old(pagination))
                && (response.Some? ==>
                      && posts == old(posts) + response.value.posts
                      && pagination == Pagination(response.value.currentPage, response.value.totalPages, response.value.totalPosts))
    {
      if pagination.currentPage >= pagination.totalPages {
        return None;
      }
      var nextPage := pagination.currentPage + 1;
      isLoading := true;
      if response.Some? {
        posts := posts + response.value.posts;
        pagination := Pagination(response.value.currentPage, response.value.totalPages, response.value.totalPosts);
      }
      isLoading := false;
      return Some(nextPage);
    }

    /** `resetPosts`: back to the empty first page; the create flag is left alone. */
    method ResetPosts()
      modifies this
      ensures posts == [] && !isLoading && pagination == InitialPagination
      ensures isCreatingPost == old(isCreatingPost)
    {
      posts := [];
      isLoading := false;
      pagination := InitialPagination;
    }
  }

  /**
   * Paging through the server feed from page 1 with the client's limit of
   * 10: after loading page `p`, the next request is page `p + 1`, and its
   * posts are exactly the feed positions that follow the ones loaded.
   */
  lemma {:induction false} NextPageContinuesFeed(all: seq<Post>, p: int)
    requires p >= 1
    requires GetPosts(all, Some(p), Some(10)).value.currentPage < GetPosts(all, Some(p), Some(10)).value.totalPages
    ensures var next := GetPosts(all, Some(p + 1), Some(10));
            && next.Some?
            && (forall i :: 0 <= i < |next.value.posts| ==> next.value.posts[i] == all[p * 10 + i])
            && GetPosts(all, Some(p), Some(10)).value.posts == all[(p - 1) * 10..p * 10]
  {
    var t := CeilDiv(|all|, 10);
    assert p < t;
    MulMonotone(p + 1, t, 10);
  }
}

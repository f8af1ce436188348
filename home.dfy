/**
 * The home page's rules (frontend/src/pages/Home.jsx): the null-safe
 * relationship checks, the like indicator, the load-more guard, the
 * post and comment composers, and when the Add Friend button shows.
 * Lists the page reads from a store may be missing while data loads,
 * which `None` stands for.
 */
module Home {
  import opened Common
  import opened ClientData
  import opened Database
  import PostController
  import opened PostStore
  import UserSearch

  /** `isCurrentUserFriend`: false for an empty id or a missing list, otherwise id membership. */
  predicate IsCurrentUserFriend(userId: Option<string>, friends: Option<seq<Person>>) {
    Truthy(userId) && friends.Some? && HasId(friends.value, userId.value)
  }

  /** `hasPendingRequest`: false for an empty id or a missing list, otherwise some sent request's filled-in target has the id. */
  predicate HasPendingRequest(userId: Option<string>, sentRequests: Option<seq<RequestView>>) {
    Truthy(userId) && sentRequests.Some? && UserSearch.HasPendingRequest(sentRequests.value, userId.value)
  }

  /** `hasLikedPost`: the signed-in user's id is among the post's likes (false while either is missing). */
  predicate HasLikedPost(likes: Option<seq<UserId>>, authUser: Option<Person>) {
    likes.Some? && authUser.Some? && authUser.value.id in likes.value
  }

  /** The Add Friend button shows for a listed user who is no friend, has no pending request and is not the signed-in user. */
  predicate ShowAddFriend(userId: UserId, friends: Option<seq<Person>>, sentRequests: Option<seq<RequestView>>, authUser: Option<Person>) {
    && !IsCurrentUserFriend(Some(userId), friends)
    && !HasPendingRequest(Some(userId), sentRequests)
    && (authUser.None? || userId != authUser.value.id)
  }

  /**
   * With loaded lists, the home page offers Add Friend exactly where the
   * search box shows its add button, except for the signed-in user, who
   * never gets one.
   */
  lemma AddFriendMatchesSearchBadge(userId: UserId, friends: seq<Person>, sentRequests: seq<RequestView>, me: Person)
    requires userId != ""
    ensures ShowAddFriend(userId, Some(friends), Some(sentRequests), Some(me)) <==>
              UserSearch.BadgeFor(friends, sentRequests, userId) == UserSearch.AddFriendButton && userId != me.id
    ensures !ShowAddFriend(me.id, Some(friends), Some(sentRequests), Some(me))
  {
  }

  /**
   * After the store applies a like answer to the loaded feed, the page's
   * like indicator on that post shows exactly that answer.
   */
  lemma {:induction false} LikeIndicatorFollowsAnswer(posts: seq<Post>, postId: string, liked: bool, me: Person, i: nat)
    requires i < |posts| && posts[i].id == postId
    ensures HasLikedPost(Some(UpdateLikes(posts, postId, liked, me.id)[i].likes), Some(me)) == liked
  {
    var r := UpdateLikes(posts, postId, liked, me.id);
    assert me.id in r[i].likes <==> liked;
  }

  /** `handleLoadMorePosts`: more posts are asked for only below the last page and while nothing loads. */
  predicate CanLoadMore(pagination: Pagination, isLoading: bool) {
    pagination.currentPage < pagination.totalPages && !isLoading
  }

  /** A per-post flag (`prev[postId]`), false when never set. */
  function Flag(flags: map<string, bool>, postId: string): bool {
    postId in flags && flags[postId]
  }

  /** `{ ...prev, [postId]: !prev[postId] }`: flips one post's flag and no other. */
  function Toggle(flags: map<string, bool>, postId: string): (r: map<string, bool>)
    ensures Flag(r, postId) == !Flag(flags, postId)
    ensures forall p :: p != postId ==> Flag(r, p) == Flag(flags, p)
  {
    flags[postId := !Flag(flags, postId)]
  }

  /** Toggling a post's flag twice restores it, and every other post's flag is untouched throughout. */
  lemma ToggleTwiceRestores(flags: map<string, bool>, postId: string)
    ensures forall p :: Flag(Toggle(Toggle(flags, postId), postId), p) == Flag(flags, p)
  {
  }

  /** The text a comment box holds for a post (`commentText[postId]`), empty when none was typed. */
  function Typed(commentText: map<string, string>, postId: string): string {
    if postId in commentText then commentText[postId] else ""
  }

  /**
   * A comment the page sends passes the server's missing-text check and
   * holds at least one visible character.
   */
  lemma {:induction false} SentCommentIsVisible(text: string)
    requires Trim(text) != ""
    ensures Truthy(Some(text))
    ensures exists i :: 0 <= i < |text| && !IsSpace(text[i])
  {
    BlankIffAllSpace(text);
  }

  /** The page's composer state. */
  class Composer {
    var postText: string
    var postImage: Option<string>
    var imagePreview: Option<string>
    var commentText: map<string, string>
    var showCommentInput: map<string, bool>
    var showAllComments: map<string, bool>

    constructor ()
      ensures postText == "" && postImage.None? && imagePreview.None?
      ensures commentText == map[] && showCommentInput == map[] && showAllComments == map[]
    {
      postText := "";
      postImage := None;
      imagePreview := None;
      commentText := map[];
      showCommentInput := map[];
      showAllComments := map[];
    }

    /**
     * `handleCreatePost`: a post with blank text and no image is refused.
     * Otherwise the trimmed text and the image go to the store (the payload
     * sent is returned), and the composer is cleared only if a post came
     * back.
     */
    method HandleCreatePost(store: PostStore, response: Option<Post>) returns (sent: Option<(string, Option<string>)>)
      modifies this, store
      ensures commentText == old(commentText) && showCommentInput == old(showCommentInput) && showAllComments == old(showAllComments)
      ensures store.isLoading == old(store.isLoading)
      ensures Trim(old(postText)) == "" && !Truthy(old(postImage)) ==>
                && sent.None?
                && postText == old(postText) && postImage == old(postImage) && imagePreview == old(imagePreview)
                && store.posts == old(store.posts) && store.pagination == old(store.pagination)
                && store.isCreatingPost == old(store.isCreatingPost)
      ensures Trim(old(postText)) != "" || Truthy(old(postImage)) ==>
                && sent == Some((Trim(old(postText)), old(postImage)))
                && !store.isCreatingPost
                && (response.Some? ==>
                      && store.posts == [response.value] + old(store.posts)
                      && store.pagination == old(store.pagination).(totalPosts := old(store.pagination).totalPosts + 1)
                      && postText == "" && postImage.None? && imagePreview.None?)
                && (response.None? ==>
                      && store.posts == old(store.posts) && store.pagination == old(store.pagination)
                      && postText == old(postText) && postImage == old(postImage) && imagePreview == old(imagePreview))
    {
      if Trim(postText) == "" && !Truthy(postImage) {
        return None;
      }
      sent := Some((Trim(postText), postImage));
      var result := store.CreatePost(response);
      if result.Some? {
        postText := "";
        postImage := None;
        imagePreview := None;
      }
    }

    /**
     * `handleAddComment`: a missing or blank comment is refused. Otherwise
     * the typed text goes to the store as typed (and is returned), and the
     * post's comment box is emptied and hidden whatever the answer.
     */
    method HandleAddComment(store: PostStore, postId: string, response: Option<Comment>) returns (sent: Option<string>)
      modifies this, store
      ensures postText == old(postText) && postImage == old(postImage) && imagePreview == old(imagePreview)
      ensures showAllComments == old(showAllComments)
      ensures store.pagination == old(store.pagination) && store.isLoading == old(store.isLoading) && store.isCreatingPost == old(store.isCreatingPost)
      ensures Trim(Typed(old(commentText), postId)) == "" ==>
                sent.None? && commentText == old(commentText) && showCommentInput == old(showCommentInput) && store.posts == old(store.posts)
      ensures Trim(Typed(old(commentText), postId)) != "" ==>
                && sent == Some(Typed(old(commentText), postId))
                && store.posts == (if response.Some? then AppendComment(old(store.posts), postId, response.value) else old(store.posts))
                && commentText == old(commentText)[postId := ""]
                && showCommentInput == old(showCommentInput)[postId := false]
    {
      var text := Typed(commentText, postId);
      if Trim(text) == "" {
        return None;
      }
      var _ := store.AddComment(postId, response);
      commentText := commentText[postId := ""];
      showCommentInput := showCommentInput[postId := false];
      return Some(text);
    }

    /** `toggleCommentInput`: flips one post's comment box. */
    method ToggleCommentInput(postId: string)
      modifies this
      ensures showCommentInput == Toggle(old(showCommentInput), postId)
      ensures commentText == old(commentText) && showAllComments == old(showAllComments)
      ensures postText == old(postText) && postImage == old(postImage) && imagePreview == old(imagePreview)
    {
      showCommentInput := Toggle(showCommentInput, postId);
    }

    /** `toggleAllComments`: flips whether one post shows all its comments. */
    method ToggleAllComments(postId: string)
      modifies this
      ensures showAllComments == Toggle(old(showAllComments), postId)
      ensures commentText == old(commentText) && showCommentInput == old(showCommentInput)
      ensures postText == old(postText) && postImage == old(postImage) && imagePreview == old(imagePreview)
    {
      showAllComments := Toggle(showAllComments, postId);
    }
  }

  /** `handleLoadMorePosts`: asks the store for the next page only when the guard allows it. */
  method HandleLoadMorePosts(store: PostStore, response: Option<PostController.FeedPage>) returns (requested: Option<int>)
    modifies store
    ensures store.isCreatingPost == old(store.isCreatingPost)
    ensures !CanLoadMore(old(store.pagination), old(store.isLoading)) ==>
              requested.None? && store.posts == old(store.posts) && store.pagination == old(store.pagination) && store.isLoading == old(store.isLoading)
    ensures CanLoadMore(old(store.pagination), old(store.isLoading)) ==>
              && requested == Some(old(store.pagination).currentPage + 1)
              && !store.isLoading
              && (response.None? ==> store.posts == old(store.posts) && store.pagination == old(store.pagination))
              && (response.Some? ==>
                    && store.posts == old(store.posts) + response.value.posts
                    && store.pagination == Pagination(response.value.currentPage, response.value.totalPages, response.value.totalPosts))
  {
    if !CanLoadMore(store.pagination, store.isLoading) {
      return None;
    }
    requested := store.LoadMorePosts(response);
  }
}

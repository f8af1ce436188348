/**
 * The post endpoints of the server
 * (backend/src/controllers/post.controller.js): creating a post, the
 * paginated feed, liking, commenting and deleting.
 *
 * Each handler is one atomic step over the store `db` and the presence
 * server `io`. The caller is the authenticated, stored user. The image
 * host is outside the model: the URL an upload returns and the clock are
 * parameters, and deleting returns the public id the image host is asked
 * to destroy.
 */
module PostController {
  import opened Common
  import opened Socket
  import opened Database

  /** `Post.findById(postId)`: the position of the post with that id. */
  function FindPost(posts: seq<Post>, postId: string): (k: Option<nat>)
    ensures k.Some? ==> k.value < |posts| && posts[k.value].id == postId
    ensures k.None? <==> forall i :: 0 <= i < |posts| ==> posts[i].id != postId
  {
    IndexWhere(posts, (p: Post) => p.id == postId)
  }

  /**
   * The owner notification of `likePost` and `addComment`: nothing when the
   * actor owns the post, otherwise one routed delivery to the owner if the
   * owner is online.
   */
  function OwnerNotice(e: Entries, owner: UserId, actor: UserId, event: string, payload: Payload): (out: seq<Delivery>)
    ensures owner == actor ==> out == []
    ensures |out| <= 1
    ensures out != [] <==> owner != actor && owner in Keys(e)
    ensures forall d :: d in out ==> d.Routed? && d.event == event && d.payload == payload && Lookup(e, owner) == Some(d.socketId)
  {
    if owner == actor then [] else RouteOutput(e, owner, event, payload)
  }

  // ---------------------------------------------------------------------
  // createPost

  /**
   * `createPost`: 400 when neither text nor image is given (an empty string
   * counts as absent); otherwise the post is stored at the head of the
   * feed, with the uploaded image's URL when an image was sent, no likes
   * and no comments.
   */
  method CreatePost(db: Db, userId: UserId, text: Option<string>, image: Option<string>, uploadedUrl: string, newPostId: string)
    returns (status: int, created: Option<Post>)
    requires db.Valid()
    requires forall i :: 0 <= i < |db.posts| ==> db.posts[i].id != newPostId
    modifies db
    ensures db.Valid()
    ensures db.users == old(db.users) && db.requests == old(db.requests)
    ensures status == 400 <==> !Truthy(text) && !Truthy(image)
    ensures status == 400 ==> created.None? && db.posts == old(db.posts)
    ensures status != 400 ==>
              && status == 201
              && created == Some(Post(newPostId, userId, text, if Truthy(image) then Some(uploadedUrl) else None, [], []))
              && db.posts == [created.value] + old(db.posts)
  {
    if !Truthy(text) && !Truthy(image) {
      return 400, None;
    }
    var imageUrl: Option<string> := None;
    if Truthy(image) {
      imageUrl := Some(uploadedUrl);
    }
    var post := Post(newPostId, userId, text, imageUrl, [], []);
    db.posts := [post] + db.posts;
    return 201, Some(post);
  }

  // ---------------------------------------------------------------------
  // getPosts

  /** `parseInt(q) || d`: an absent or unparsable value (NaN) and zero both fall back to `d`. */
  function OrDefault(q: Option<int>, d: int): (v: int)
    ensures v == d || (q.Some? && v == q.value && v != 0)
    ensures q.Some? && q.value != 0 ==> v == q.value
  {
    if q.Some? && q.value != 0 then q.value else d
  }

  /**
   * `Math.ceil(a / b)` for a non-negative `a` and a non-zero `b`: the least
   * integer `r` with `a <= r * b` when `b` is positive, and with
   * `r * b <= a` when `b` is negative.
   */
  function CeilDiv(a: nat, b: int): (r: int)
    requires b != 0
    ensures b > 0 ==> r * b >= a && (r - 1) * b < a
    ensures b < 0 ==> r * b <= a && (r - 1) * b > a
  {
    if b > 0 then (a + b - 1) / b else -(a / -b)
  }

  /** `skip(skip).limit(n)` on the sorted feed: up to `n` posts starting at position `skip`. */
  function Window(all: seq<Post>, skip: nat, n: nat): (r: seq<Post>)
    ensures |r| <= n
    ensures skip < |all| && n > 0 ==> r != [] && r[0] == all[skip]
    ensures forall i :: 0 <= i < |r| ==> skip + i < |all| && r[i] == all[skip + i]
    ensures skip + n <= |all| ==> |r| == n
    ensures |r| == if skip >= |all| then 0 else if skip + n <= |all| then n else |all| - skip
  {
    if skip >= |all| then [] else if skip + n <= |all| then all[skip..skip + n] else all[skip..]
  }

  /** The body of a successful `getPosts` answer. */
  datatype FeedPage = FeedPage(posts: seq<Post>, currentPage: int, totalPages: int, totalPosts: nat)

  /**
   * `getPosts` over the feed `all`, newest first. Page and limit default to
   * 1 and 10; `(page - 1) * limit` posts are skipped. A negative skip makes
   * the query fail (a server error, `None`); a negative limit returns that
   * many posts in absolute value, as the database treats it.
   */
  function GetPosts(all: seq<Post>, pageQuery: Option<int>, limitQuery: Option<int>): (r: Option<FeedPage>)
    ensures r.Some? ==> r.value.totalPosts == |all| && r.value.currentPage == OrDefault(pageQuery, 1)
    ensures r.None? <==> (OrDefault(pageQuery, 1) - 1) * OrDefault(limitQuery, 10) < 0
    ensures r.Some? ==>
              var limit := OrDefault(limitQuery, 10);
              && r.value.totalPages == CeilDiv(|all|, limit)
              && r.value.posts == Window(all, (OrDefault(pageQuery, 1) - 1) * limit, if limit < 0 then -limit else limit)
  {
    var page := OrDefault(pageQuery, 1);
    var limit := OrDefault(limitQuery, 10);
    var skip := (page - 1) * limit;
    if skip < 0 then None
    else Some(FeedPage(Window(all, skip, if limit < 0 then -limit else limit), page, CeilDiv(|all|, limit), |all|))
  }

  /** With no query the feed answers page 1 of the ten newest posts. */
  lemma DefaultFeedPage(all: seq<Post>)
    ensures GetPosts(all, None, None).Some?
    ensures var r := GetPosts(all, None, None).value;
            && r.currentPage == 1
            && r.posts == (if |all| <= 10 then all else all[..10])
            && r.totalPages * 10 >= |all| > (r.totalPages - 1) * 10
  {
  }

  /**
   * With a positive limit the pages partition the feed: the post at
   * position `i` is item `i % limit` of page `i / limit + 1`, and that page
   * is within `totalPages`.
   */
  lemma {:induction false} EveryPostOnItsPage(all: seq<Post>, limit: int, i: nat)
    requires limit > 0 && i < |all|
    ensures var r := GetPosts(all, Some(i / limit + 1), Some(limit));
            && r.Some?
            && 1 <= r.value.currentPage <= r.value.totalPages
            && i % limit < |r.value.posts|
            && r.value.posts[i % limit] == all[i]
  {
    var page := i / limit + 1;
    var skip := (page - 1) * limit;
    assert skip == i / limit * limit;
    assert skip + i % limit == i;
    var r := GetPosts(all, Some(page), Some(limit)).value;
    var t := r.totalPages;
    assert t * limit >= |all|;
    assert skip < t * limit;
    MulCancel(page - 1, t, limit);
    if skip + limit <= |all| {
      assert |r.posts| == limit;
    } else {
      assert |r.posts| == |all| - skip;
    }
  }

  /** Cancels a positive factor from a strict product inequality; supports the page bound in `EveryPostOnItsPage`. */
  lemma MulCancel(a: int, b: int, c: int)
    requires c > 0 && a * c < b * c
    ensures a < b
  {
    if a >= b {
      MulMonotone(b, a, c);
    }
  }

  /** Multiplying by a natural keeps `<=`; supports `MulCancel`, `PastLastPageEmpty` and `PostStore.NextPageContinuesFeed`. */
  lemma MulMonotone(a: int, b: int, c: nat)
    requires a <= b
    ensures a * c <= b * c
  {
  }

  /** With a positive limit every page past `totalPages` is empty. */
  lemma {:induction false} PastLastPageEmpty(all: seq<Post>, limit: int, page: int)
    requires limit > 0
    requires var r := GetPosts(all, Some(page), Some(limit)); r.Some? && page > r.value.totalPages
    ensures GetPosts(all, Some(page), Some(limit)).value.posts == []
  {
    var t := CeilDiv(|all|, limit);
    MulMonotone(t, page - 1, limit);
  }

  // ---------------------------------------------------------------------
  // likePost

  /**
   * The like toggle: a user who likes the post loses every like of theirs,
   * anyone else gains one like at the end. Other users' likes are kept.
   */
  function ToggleLike(likes: seq<UserId>, u: UserId): (r: seq<UserId>)
    ensures u in r <==> u !in likes
    ensures forall v :: v != u ==> (v in r <==> v in likes)
    ensures u !in likes ==> r == likes + [u]
    ensures u in likes ==> IsSubsequence(r, likes) && |r| < |likes|
    ensures NoDup(likes) ==> NoDup(r)
  {
    if u in likes then
      FilterCountsAndOrder(likes, y => y != u);
      FilterShrinks(likes, y => y != u, u);
      Pull(likes, u)
    else
      assert multiset(likes + [u]) == multiset(likes) + multiset{u};
      likes + [u]
  }

  /** A filter that drops an element of `s` makes it strictly shorter. */
  lemma {:induction false} FilterShrinks<T(!new)>(s: seq<T>, keep: T -> bool, x: T)
    requires x in s && !keep(x)
    ensures |Filter(s, keep)| < |s|
    decreases |s|
  {
    if s[0] != x {
      FilterShrinks(s[1..], keep, x);
    }
  }

  /**
   * Liking twice restores the user's membership in the likes; starting
   * from a post the user did not like, it restores the list exactly.
   */
  lemma {:induction false} ToggleTwice(likes: seq<UserId>, u: UserId)
    ensures u in ToggleLike(ToggleLike(likes, u), u) <==> u in likes
    ensures forall v :: v in ToggleLike(ToggleLike(likes, u), u) <==> v in likes
    ensures u !in likes ==> ToggleLike(ToggleLike(likes, u), u) == likes
  {
    if u !in likes {
      FilterConcat(likes, [u], y => y != u);
      FilterKeepsAll(likes, y => y != u);
    }
  }

  /**
   * `likePost`: 404 for a missing post; otherwise the caller's like is
   * toggled, the answer reports the new state and count, and the owner is
   * notified (on a like and on an unlike) unless the caller owns the post.
   */
  method LikePost(db: Db, io: PresenceServer, userId: UserId, postId: string)
    returns (status: int, liked: bool, likesCount: int, likes: seq<UserId>)
    requires db.Valid() && userId in db.users
    modifies db, io
    ensures db.Valid()
    ensures db.users == old(db.users) && db.requests == old(db.requests) && io.userSocketMap == old(io.userSocketMap)
    ensures FindPost(old(db.posts), postId).None? ==> status == 404 && db.posts == old(db.posts) && io.log == old(io.log)
    ensures FindPost(old(db.posts), postId).Some? ==>
              var k := FindPost(old(db.posts), postId).value;
              var post := old(db.posts)[k];
              && status == 200
              && liked == (userId !in post.likes)
              && likes == ToggleLike(post.likes, userId)
              && likesCount == |likes|
              && db.posts == old(db.posts)[k := post.(likes := likes)]
              && io.log == old(io.log) + OwnerNotice(io.userSocketMap, post.userId, userId, "postLiked", Actor(db.users[userId].fullName))
  {
    var found := FindPost(db.posts, postId);
    if found.None? {
      return 404, false, 0, [];
    }
    var k := found.value;
    var post := db.posts[k];
    var isLiked := userId in post.likes;
    var newLikes := ToggleLike(post.likes, userId);
    db.posts := db.posts[k := post.(likes := newLikes)];
    if post.userId != userId {
      io.Route(post.userId, "postLiked", Actor(db.users[userId].fullName));
    }
    return 200, !isLiked, |newLikes|, newLikes;
  }

  // ---------------------------------------------------------------------
  // addComment

  /**
   * `addComment`: 400 for a missing or empty text, checked before the post
   * is looked up; 404 for a missing post; otherwise one comment is appended
   * and returned, and the owner is notified unless the caller owns the post.
   */
  method AddComment(db: Db, io: PresenceServer, userId: UserId, postId: string, text: Option<string>, now: int)
    returns (status: int, added: Option<Comment>)
    requires db.Valid() && userId in db.users
    modifies db, io
    ensures db.Valid()
    ensures db.users == old(db.users) && db.requests == old(db.requests) && io.userSocketMap == old(io.userSocketMap)
    ensures !Truthy(text) ==> status == 400
    ensures Truthy(text) && FindPost(old(db.posts), postId).None? ==> status == 404
    ensures status != 201 ==> added.None? && db.posts == old(db.posts) && io.log == old(io.log)
    ensures Truthy(text) && FindPost(old(db.posts), postId).Some? ==>
              var k := FindPost(old(db.posts), postId).value;
              var post := old(db.posts)[k];
              && status == 201
              && added == Some(Comment(userId, text.value, now))
              && db.posts == old(db.posts)[k := post.(comments := post.comments + [added.value])]
              && db.posts[k].comments[|db.posts[k].comments| - 1] == added.value
              && io.log == old(io.log) + OwnerNotice(io.userSocketMap, post.userId, userId, "postCommented", Actor(db.users[userId].fullName))
  {
    if !Truthy(text) {
      return 400, None;
    }
    var found := FindPost(db.posts, postId);
    if found.None? {
      return 404, None;
    }
    var k := found.value;
    var post := db.posts[k];
    var comment := Comment(userId, text.value, now);
    db.posts := db.posts[k := post.(comments := post.comments + [comment])];
    if post.userId != userId {
      io.Route(post.userId, "postCommented", Actor(db.users[userId].fullName));
    }
    return 201, Some(comment);
  }

  // ---------------------------------------------------------------------
  // deletePost

  /** The last `/`-separated segment of `s`: `s.split("/").pop()`. */
  function AfterLastSlash(s: string): (r: string)
    ensures '/' !in r
    ensures |r| <= |s| && r == s[|s| - |r|..]
    ensures |r| < |s| ==> s[|s| - |r| - 1] == '/'
    decreases |s|
  {
    if s == [] || s[|s| - 1] == '/' then []
    else AfterLastSlash(s[..|s| - 1]) + [s[|s| - 1]]
  }

  /** The part of `s` before its first `.`: `s.split(".")[0]`. */
  function BeforeFirstDot(s: string): (r: string)
    ensures '.' !in r
    ensures |r| <= |s| && r == s[..|r|]
    ensures |r| < |s| ==> s[|r|] == '.'
    decreases |s|
  {
    if s == [] || s[0] == '.' then []
    else [s[0]] + BeforeFirstDot(s[1..])
  }

  /** The image host's public id of an image URL: the file name of its last segment, without extension. */
  function PublicId(url: string): (r: string)
    ensures '/' !in r && '.' !in r
    ensures |r| <= |url|
  {
    BeforeFirstDot(AfterLastSlash(url))
  }

  lemma {:induction false} AfterLastSlashOf(prefix: string, name: string)
    requires '/' !in name
    ensures AfterLastSlash(prefix + "/" + name) == name
    decreases |name|
  {
    var s := prefix + "/" + name;
    if name == [] {
      assert s[|s| - 1] == '/';
    } else {
      var init := name[..|name| - 1];
      assert s[..|s| - 1] == prefix + "/" + init;
      AfterLastSlashOf(prefix, init);
      assert init + [name[|name| - 1]] == name;
    }
  }

  lemma {:induction false} BeforeFirstDotOf(name: string, ext: string)
    requires '.' !in name
    ensures BeforeFirstDot(name + "." + ext) == name
    decreases |name|
  {
    var s := name + "." + ext;
    if name != [] {
      assert s[1..] == name[1..] + "." + ext;
      BeforeFirstDotOf(name[1..], ext);
    }
  }

  /**
   * The public id recovers the file name the image host put in an upload
   * URL `…/name.ext`, whenever the name has no `/` or `.` and the extension
   * has no `/`.
   */
  lemma {:induction false} PublicIdOfUploadUrl(base: string, name: string, ext: string)
    requires '/' !in name && '.' !in name && '/' !in ext
    ensures PublicId(base + "/" + name + "." + ext) == name
  {
    assert base + "/" + name + "." + ext == base + "/" + (name + "." + ext);
    AfterLastSlashOf(base, name + "." + ext);
    BeforeFirstDotOf(name, ext);
  }

  /**
   * `Post.findByIdAndDelete` on the post found at `k`: the others stay, in
   * order, and with distinct ids the deleted id is gone.
   */
  method RemovePost(posts: seq<Post>, k: nat) returns (rest: seq<Post>)
    requires k < |posts| && DistinctPostIds(posts)
    ensures rest == posts[..k] + posts[k + 1..]
    ensures DistinctPostIds(rest)
    ensures forall p :: p in rest <==> p in posts && p.id != posts[k].id
  {
    rest := posts[..k] + posts[k + 1..];
    forall p ensures p in rest <==> p in posts && p.id != posts[k].id {
      if p in rest {
        var j :| 0 <= j < |rest| && rest[j] == p;
        if j < k {
          assert posts[j] == p;
        } else {
          assert posts[j + 1] == p;
        }
      }
    }
  }

  /** The owner of a post, or an administrator, may delete it. */
  predicate MayDelete(post: Post, caller: User) {
    post.userId == caller.id || caller.role == Admin
  }

  /**
   * `deletePost`: 404 for a missing post, 403 unless the caller owns it or
   * is an administrator; otherwise the post is removed and, when it has an
   * image, its public id is handed to the image host to destroy.
   */
  method DeletePost(db: Db, userId: UserId, postId: string) returns (status: int, destroyed: Option<string>)
    requires db.Valid() && userId in db.users
    modifies db
    ensures db.Valid()
    ensures db.users == old(db.users) && db.requests == old(db.requests)
    ensures FindPost(old(db.posts), postId).None? ==> status == 404
    ensures FindPost(old(db.posts), postId).Some? && !MayDelete(old(db.posts)[FindPost(old(db.posts), postId).value], db.users[userId]) ==> status == 403
    ensures status != 200 ==> db.posts == old(db.posts) && destroyed.None?
    ensures FindPost(old(db.posts), postId).Some? && MayDelete(old(db.posts)[FindPost(old(db.posts), postId).value], db.users[userId]) ==>
              var k := FindPost(old(db.posts), postId).value;
              var post := old(db.posts)[k];
              && status == 200
              && db.posts == old(db.posts)[..k] + old(db.posts)[k + 1..]
              && (forall p :: p in db.posts <==> p in old(db.posts) && p.id != postId)
              && destroyed == (if Truthy(post.image) then Some(PublicId(post.image.value)) else None)
  {
    var found := FindPost(db.posts, postId);
    if found.None? {
      return 404, None;
    }
    var k := found.value;
    var post := db.posts[k];
    if !MayDelete(post, db.users[userId]) {
      return 403, None;
    }
    destroyed := None;
    if Truthy(post.image) {
      destroyed := Some(PublicId(post.image.value));
    }
    var rest := RemovePost(db.posts, k);
    db.posts := rest;
    status := 200;
  }
}

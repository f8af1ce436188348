# Social chat app: presence registry, friend and post rules, client stores

This project models the core of a small social network with chat. The
server keeps a **presence registry**, `userSocketMap`, from a user id to the
socket id of that user's latest connection. It broadcasts the online list
whenever a connection opens or closes, and routes typing indicators, read
receipts and domain notifications to the recipient's socket. Around the
registry sit:

- the **friend endpoints**: sending a request, answering it, removing a
  friend, and the three read queries;
- the **post endpoints**: creating a post, the paginated feed, likes,
  comments, and deletion with the derived image id;
- the browser's three **stores**: friends, posts, and the session with its
  notification list;
- the pure rules of four **UI components**: the friend button's status
  machine, the sidebar's suggestion and search filters, the user search
  box, and the home page's null-safe checks and input guards.

Modules, one per core file:

| module | file | models |
|---|---|---|
| `Common` | common.dfy | `Option`, JavaScript truthiness of strings, order-keeping `Filter`, ASCII `toLowerCase`, `includes` on strings, `trim` over ECMAScript white space and line terminators |
| `Socket` | socket.dfy | backend/src/lib/socket.js: class `PresenceServer` with `userSocketMap` as an entry sequence in key-insertion order (see "## Left out" for integer-like keys) and an output `log` |
| `Database` | database.dfy | the stored users, friend requests and posts (class `Db`), the friend graph and request log invariants |
| `FriendController` | friend_controller.dfy | backend/src/controllers/friend.controller.js |
| `PostController` | post_controller.dfy | backend/src/controllers/post.controller.js |
| `ClientData` | client_data.dfy | the records the client receives, the `_id` membership and online checks |
| `FriendStore` | friend_store.dfy | frontend/src/store/useFriendStore.js |
| `PostStore` | post_store.dfy | frontend/src/store/usePostStore.js |
| `AuthStore` | auth_store.dfy | frontend/src/store/useAuthStore.js |
| `FriendButton` | friend_button.dfy | frontend/src/Components/FriendButton.jsx |
| `FriendsWidget` | friends_widget.dfy | frontend/src/Components/FriendsWidget.jsx |
| `UserSearch` | user_search.dfy | frontend/src/Components/UserSearch.jsx |
| `Home` | home.dfy | frontend/src/pages/Home.jsx |

Modelling conventions:

- **Deliveries.** Every emit is appended to `PresenceServer.log`. It is
  either `Routed(socketId, event, payload)` or a `Broadcast(event, payload)`.
- **Handlers.** Each HTTP handler and socket listener is modelled as one
  atomic step. This is a modelling choice, not a property of the server:
  the handlers await the database between their checks and their writes
  (backend/src/controllers/friend.controller.js:37, 49, 66, 120-130,
  169-183), so other requests can run in between. "## Left out" lists
  what this hides.
- **Generated values.** Ids the database would generate, the upload URL
  and the clock (integer milliseconds) are parameters.
- **Server answers seen by a store.** Each is an input: `Some(data)` for a
  success and `None` for a failure.

Two points of behaviour are worth stating outright:

- The server broadcasts `getOnlineUsers` after every connection and every
  disconnect, including anonymous connections and closes of superseded
  sockets (backend/src/lib/socket.js:34, 71). `Connect` and `Disconnect`
  always append the broadcast, whether or not the online set changed.
- The schema of friend-request records is not part of this model. The
  read queries only return `pending` records, so a new request is taken to
  start as `Pending`.

## Model

| member | source | states |
|---|---|---|
| Common.Trim | frontend/src/pages/Home.jsx:107 | `trim()`: a slice of the input with only white space cut from either end, and not starting or ending with white space |
| Common.BlankIffAllSpace | frontend/src/pages/Home.jsx:160 | a string trims to `""` exactly when every character is white space |
| Common.UnicodeBlanks | frontend/src/Components/UserSearch.jsx:38 | ideographic, Ogham and em spaces and the line separator trim away, as ECMAScript's white space includes them; a zero-width space does not |
| Socket.Lookup | backend/src/lib/socket.js:19-21 | a user with no entry resolves to `None`, never an error; a found socket is that user's entry |
| Socket.Assign | backend/src/lib/socket.js:29 | `userSocketMap[u] = s`: an existing entry is overwritten in place, a new one added at the end (its properties are `AssignLookup` and `AssignKeys`) |
| Socket.AssignLookup | backend/src/lib/socket.js:27-31 | after `userSocketMap[u] = s`, `u` resolves to `s` and every other user resolves as before |
| Socket.AssignKeys | backend/src/lib/socket.js:29 | the key list is unchanged when `u` was mapped, otherwise `u` is added at the end |
| Socket.AssignDistinct | backend/src/lib/socket.js:29 | assigning a socket id not yet in use keeps one entry per user and one user per socket |
| Socket.RemoveValue | backend/src/lib/socket.js:64-69 | the disconnect loop as a value: the first entry holding the socket is deleted, nothing when none does (its properties are the lemmas below) |
| Socket.RemoveValueAt | backend/src/lib/socket.js:64-69 | the scan deletes exactly the first entry whose value is the closing socket and keeps the order of the rest |
| Socket.FindValue | backend/src/lib/socket.js:64-69 | the scan of `Object.entries` stops at the first entry holding the closing socket, or at the end when none does |
| Socket.DeleteEntry | backend/src/lib/socket.js:66 | deleting the entry the scan found is the specified removal, one entry shorter |
| Socket.DisconnectKeepsRegistry | backend/src/lib/socket.js:64-69 | a close keeps the registry well formed and takes offline exactly the user that resolved to the closing socket |
| Socket.NoMatchUnchanged | backend/src/lib/socket.js:64-69 | closing a socket that no entry holds (a superseded or anonymous one) leaves the map unchanged |
| Socket.RemoveValueDistinct | backend/src/lib/socket.js:64-69 | the delete keeps keys and values distinct, adds nothing, and leaves no entry holding the closed socket |
| Socket.RemoveValueLookup | backend/src/lib/socket.js:64-69 | after a close, exactly the user mapped to that socket goes offline; everyone else resolves as before |
| Socket.DisconnectIdempotent | backend/src/lib/socket.js:64-69 | closing the same socket twice has the effect of closing it once |
| Socket.RouteOutput | backend/src/lib/socket.js:38-40 | a routed event yields one delivery to the recipient's mapped socket, or nothing if the recipient is unmapped |
| Socket.PresenceServer.constructor | backend/src/lib/socket.js:16 | the registry starts empty and nothing has been sent |
| Socket.PresenceServer.GetReceiverSocketId | backend/src/lib/socket.js:19-21 | `getReceiverSocketId` is `Lookup` on the current map: `None` exactly for an unmapped user |
| Socket.PresenceServer.Route | backend/src/lib/socket.js:19-21 | routing leaves the map unchanged and appends the delivery `RouteOutput` gives |
| Socket.PresenceServer.Connect | backend/src/lib/socket.js:27-34 | with a non-empty handshake id, that user now maps to the new socket (last connection wins) and others are unchanged; without one, the map is unchanged; a `getOnlineUsers` broadcast of the keys follows either way |
| Socket.PresenceServer.Typing | backend/src/lib/socket.js:37-42 | `typing {senderId}` reaches the receiver's mapped socket and nobody else; no check that the sender is registered |
| Socket.PresenceServer.StopTyping | backend/src/lib/socket.js:44-49 | `stopTyping {senderId}` reaches the receiver's mapped socket and nobody else |
| Socket.PresenceServer.MessageRead | backend/src/lib/socket.js:52-57 | `messageRead {messageId}` reaches the receiver's mapped socket and nobody else |
| Socket.PresenceServer.Disconnect | backend/src/lib/socket.js:60-72 | the loop removes the entry holding the closing socket, which takes exactly its user offline, and a broadcast of the remaining keys follows |
| Database.AddToSet | backend/src/controllers/friend.controller.js:121-130 | `$addToSet` leaves the list as it is when the id is there and appends it at the end otherwise: old members plus the new one, without creating duplicates |
| Database.Pull | backend/src/controllers/friend.controller.js:175-183 | `$pull` removes every copy of the id and keeps every other member with its multiplicity, in order |
| Database.Befriend | backend/src/controllers/friend.controller.js:121-130 | the two `$addToSet` updates of an accept: every stored user is kept, and each user record is `BefriendOne` of the old one |
| Database.Unfriend | backend/src/controllers/friend.controller.js:175-183 | the two `$pull` updates of a removal: every stored user is kept, and each user record is `UnfriendOne` of the old one |
| Database.BefriendKeepsGraph | backend/src/controllers/friend.controller.js:121-130 | accepting keeps friendship symmetric and duplicate-free; each user gains the other; nobody else changes |
| Database.UnfriendKeepsGraph | backend/src/controllers/friend.controller.js:175-183 | removing a friend takes each out of the other's list, keeps the friend graph well formed, and changes nobody else |
| Database.NewRequestKeepsLog | backend/src/controllers/friend.controller.js:61-66 | a request that passed the guards keeps request ids and user pairs unique |
| Database.AcceptKeepsOtherPending | backend/src/controllers/friend.controller.js:119-130 | after an accept, every other pending request still joins two users who are not friends, since no two requests join the same pair |
| Database.AcceptKeepsRequestLog | backend/src/controllers/friend.controller.js:119-130 | recording an acceptance and adding the friendship keeps the request log well formed |
| Database.AcceptKeepsLog | backend/src/controllers/friend.controller.js:119-130 | accepting a pending request keeps the request log consistent with the new friend graph |
| Database.UnfriendKeepsLog | backend/src/controllers/friend.controller.js:175-183 | removing a friend keeps the request log consistent |
| FriendController.SendStatus | backend/src/controllers/friend.controller.js:32-58 | 400 to oneself, 404 for an unknown target, 400 for existing friends or any request in either direction whatever its status, 201 exactly otherwise |
| FriendController.SendRequest | backend/src/controllers/friend.controller.js:26-89 | a refused request changes nothing; a 201 appends exactly one pending request from caller to target and routes `friendRequest` with the caller's card only to a mapped target |
| FriendController.RequestBlocksResend | backend/src/controllers/friend.controller.js:49-58 | once any request joins two users, a new request between them is refused in both directions, so a declined or accepted pair can never be re-requested |
| FriendController.SendThenResendRefused | backend/src/controllers/friend.controller.js:49-66 | a successful request keeps the log well formed, and sending it again, in either direction, is refused |
| FriendController.FindRequest | backend/src/controllers/friend.controller.js:105 | `findById`: the found index holds the id; `None` exactly when no request has it |
| FriendController.RespondStatus | backend/src/controllers/friend.controller.js:105-117 | 404 exactly for a missing request, 403 unless the caller is its recipient, 400 unless it is pending, 200 otherwise |
| Database.Db.SaveAnswer | backend/src/controllers/friend.controller.js:119-130 | the answered request's status is stored, both users gain each other as friends only on acceptance, posts are untouched, and the store stays well formed |
| FriendController.UnfriendOneUndoesBefriendOne | backend/src/controllers/friend.controller.js:121-130 | for each user, the `$pull`s of an unfriend undo the `$addToSet`s of an accept that added new friends (also lines 175-183) |
| FriendController.RespondRequest | backend/src/controllers/friend.controller.js:99-154 | a refusal changes nothing; a 200 records the answer, makes the pair friends only on accept, and routes `friendRequestAccepted` to the requester only on accept |
| FriendController.AnswerIsFinal | backend/src/controllers/friend.controller.js:115-120 | once a request is answered, any further answer to it is refused with 400 |
| FriendController.AcceptMakesFriends | backend/src/controllers/friend.controller.js:119-130 | after an accept each party is in the other's friend list, and the state satisfies both invariants |
| FriendController.RemoveFriend | backend/src/controllers/friend.controller.js:163-197 | 400 exactly when the two are not friends, changing nothing; otherwise both lists drop the other and `friendRemoved {userId}` is routed to a mapped friend |
| FriendController.PullUndoesAdd | backend/src/controllers/friend.controller.js:121-130 | `$pull` undoes an `$addToSet` of a new member (also lines 175-183) |
| FriendController.UnfriendUndoesBefriend | backend/src/controllers/friend.controller.js:121-130 | removing a friend just gained restores every user's record (also lines 175-183) |
| FriendController.Populate | backend/src/controllers/friend.controller.js:209 | `populate` yields only stored records of listed ids and keeps every stored one; when every listed id is stored, exactly one record per id, in list order |
| FriendController.GetFriends | backend/src/controllers/friend.controller.js:205-216 | every returned record is a stored friend of the caller |
| FriendController.GetFriendsComplete | backend/src/controllers/friend.controller.js:205-216 | in a consistent store, the list holds the record of every friend id, one per id, in friend-list order |
| FriendController.GetRequests | backend/src/controllers/friend.controller.js:228-231 | exactly the pending requests addressed to the caller, each as often as stored, in stored order |
| FriendController.GetSentRequests | backend/src/controllers/friend.controller.js:250-253 | exactly the pending requests the caller sent, each as often as stored, in stored order |
| FriendController.QueriesTrackRequest | backend/src/controllers/friend.controller.js:61-66 | a new request shows in the target's incoming and the sender's outgoing list; once answered it leaves both (also lines 119-120, 228-231, 250-253) |
| PostController.FindPost | backend/src/controllers/post.controller.js:88-91 | `findById` on posts: the found index holds the id; `None` exactly when no post has it |
| PostController.OwnerNotice | backend/src/controllers/post.controller.js:108-116 | an owner notification is never sent to an actor who owns the post, and is sent only to a mapped owner (also lines 152-159) |
| PostController.CreatePost | backend/src/controllers/post.controller.js:7-46 | 400 and nothing created exactly when both text and image are empty; otherwise the new post, with the uploaded URL when there is an image, goes to the head of the feed |
| PostController.OrDefault | backend/src/controllers/post.controller.js:51-52 | `parseInt(q) \|\| d`: a missing or zero query gives the default |
| PostController.CeilDiv | backend/src/controllers/post.controller.js:73 | `Math.ceil(a / b)` for either sign of the limit |
| PostController.Window | backend/src/controllers/post.controller.js:55-60 | `skip(k).limit(n)`: the posts at feed positions `k`, `k+1`, … in order; exactly `n` of them when the feed has that many past `k`, the `|all| - k` remaining ones on a partial last page, none past the end |
| PostController.GetPosts | backend/src/controllers/post.controller.js:49-80 | the page reports the requested page and the total; `totalPages` is the ceiling of total over limit (`CeilDiv`), and the posts are the `skip((page-1)*limit).limit(limit)` window of the feed; the query fails exactly when the skip is negative |
| PostController.DefaultFeedPage | backend/src/controllers/post.controller.js:51-53 | no query means page 1, limit 10, the first ten posts, and `ceil(total/10)` pages (also line 73) |
| PostController.EveryPostOnItsPage | backend/src/controllers/post.controller.js:53 | with a positive limit, post `i` is on page `i / limit + 1`, and that page is within the reported total (also line 73) |
| PostController.PastLastPageEmpty | backend/src/controllers/post.controller.js:53 | a page beyond the reported total is empty (also line 73) |
| PostController.ToggleLike | backend/src/controllers/post.controller.js:94-104 | the user's membership flips: an unliked post gets one like appended, a liked one loses every like of the user; other likes stay |
| PostController.ToggleTwice | backend/src/controllers/post.controller.js:94-104 | liking twice restores the user's membership, and restores the list exactly when the user had not liked it |
| PostController.LikePost | backend/src/controllers/post.controller.js:83-126 | 404 for a missing post; otherwise the toggle, `liked = !wasLiked`, `likesCount` the new length, and `postLiked` to the owner unless the owner is the actor, on unlike too |
| PostController.AddComment | backend/src/controllers/post.controller.js:129-174 | 400 for empty text before the lookup, 404 for a missing post; otherwise exactly one comment appended, it is the returned one, and `postCommented` goes to the owner unless the owner is the actor |
| PostController.AfterLastSlash | backend/src/controllers/post.controller.js:195 | `split("/").pop()`: the longest slash-free suffix |
| PostController.BeforeFirstDot | backend/src/controllers/post.controller.js:195 | `split(".")[0]`: the longest dot-free prefix |
| PostController.PublicId | backend/src/controllers/post.controller.js:195 | `split("/").pop().split(".")[0]`: the result holds no `/` and no `.` and is no longer than the URL |
| PostController.PublicIdOfUploadUrl | backend/src/controllers/post.controller.js:195 | the public id of `base/name.ext` is `name` |
| PostController.RemovePost | backend/src/controllers/post.controller.js:199 | deleting the found post keeps the others in order, keeps post ids distinct and leaves no post with the deleted id |
| PostController.MayDelete | backend/src/controllers/post.controller.js:187 | the owner of a post, or an administrator, may delete it |
| PostController.DeletePost | backend/src/controllers/post.controller.js:177-206 | 404 for a missing post, 403 unless the caller owns it or is an admin; otherwise exactly that post is removed and its image's public id is handed to the destroy call |
| ClientData.HasId | frontend/src/Components/FriendButton.jsx:24 | `xs.some(x => x._id === id)`: some record carries the id |
| ClientData.IsUserOnline | frontend/src/pages/Home.jsx:261-263 | `onlineUsers.includes(userId)` |
| ClientData.WithoutId | frontend/src/store/useFriendStore.js:155-157 | `filter(f => f._id !== id)`: every record with the id is gone, every other record keeps its multiplicity, and the order is kept |
| ClientData.WithoutIdAbsent | frontend/src/store/useFriendStore.js:203-207 | removing an absent id changes nothing, and removing twice is removing once |
| FriendStore.FriendStore.constructor | frontend/src/store/useFriendStore.js:23-26 | the store starts with empty lists and `loading` false |
| FriendStore.FriendStore.FetchFriends | frontend/src/store/useFriendStore.js:33-45 | success replaces the list and returns it; failure returns `[]` and keeps it; `loading` ends false |
| FriendStore.FriendStore.FetchFriendRequests | frontend/src/store/useFriendStore.js:51-63 | the same for the incoming requests |
| FriendStore.FriendStore.FetchSentRequests | frontend/src/store/useFriendStore.js:69-81 | the same for the outgoing requests |
| FriendStore.FriendStore.SendFriendRequest | frontend/src/store/useFriendStore.js:88-111 | an empty id or a failure returns `None` with the lists unchanged and `loading` false; success refreshes the outgoing list |
| FriendStore.FriendStore.RespondToFriendRequest | frontend/src/store/useFriendStore.js:120-140 | success refreshes incoming requests and friends; failure returns `None` and changes no list |
| FriendStore.FriendStore.RemoveFriend | frontend/src/store/useFriendStore.js:148-167 | success drops every friend with that id and keeps the rest in order; failure returns `None` |
| FriendStore.FriendStore.HandleNewFriendRequest | frontend/src/store/useFriendStore.js:174-181 | exactly one request is appended to the incoming list |
| FriendStore.FriendStore.HandleFriendRequestAccepted | frontend/src/store/useFriendStore.js:189-194 | friends and outgoing requests are fetched again |
| FriendStore.FriendStore.HandleFriendRemoved | frontend/src/store/useFriendStore.js:202-209 | the friend with that id leaves the list; no other friend changes |
| PostStore.UpdateLikes | frontend/src/store/usePostStore.js:67-78 | only posts with the id change, and only in their likes: on a like the user id is appended at the end, on an unlike every copy is pulled and the rest keep their order; the user's id is present exactly when the answer says liked |
| PostStore.ClientLikeMatchesServer | frontend/src/store/usePostStore.js:67-78 | on an up-to-date copy the client's update equals the server's toggle |
| PostStore.LikeThenUnlikeRestores | frontend/src/store/usePostStore.js:67-78 | a like answer followed by an unlike answer restores the loaded feed |
| PostStore.AppendComment | frontend/src/store/usePostStore.js:95-101 | the returned comment is appended to the matching posts only |
| PostStore.WithoutPost | frontend/src/store/usePostStore.js:117-123 | every post with the id leaves the feed, every other post keeps its multiplicity, and the order is kept |
| PostStore.PostStore.constructor | frontend/src/store/usePostStore.js:7-14 | an empty feed on page 1 of 1 with 0 posts |
| PostStore.PostStore.GetPosts | frontend/src/store/usePostStore.js:17-35 | success replaces posts and pagination wholesale; `isLoading` ends false either way |
| PostStore.PostStore.CreatePost | frontend/src/store/usePostStore.js:38-58 | success prepends the post and adds 1 to the total; failure returns `None` and keeps the posts; `isCreatingPost` ends false |
| PostStore.PostStore.LikePost | frontend/src/store/usePostStore.js:61-85 | the server's `liked` answer is applied through `UpdateLikes`; a failure changes nothing |
| PostStore.PostStore.AddComment | frontend/src/store/usePostStore.js:88-108 | the returned comment is appended to the matching posts; a failure changes nothing |
| PostStore.PostStore.DeletePost | frontend/src/store/usePostStore.js:111-132 | success removes the post and takes 1 from the total even when the post was not loaded, returning true; failure returns false |
| PostStore.PostStore.LoadMorePosts | frontend/src/store/usePostStore.js:135-158 | no-op on the last page; otherwise page `currentPage + 1` is requested and its posts appended after the loaded ones |
| PostStore.PostStore.ResetPosts | frontend/src/store/usePostStore.js:161-171 | empty posts, page 1 of 1, 0 total, not loading |
| PostStore.NextPageContinuesFeed | frontend/src/store/usePostStore.js:135-151 | paging with limit 10: the next page holds exactly the feed positions after the ones loaded |
| AuthStore.Near | frontend/src/store/useAuthStore.js:32 | two times less than 2000 ms apart, in either order |
| AuthStore.Repeats | frontend/src/store/useAuthStore.js:29-33 | `existing.some(...)`: some entry has the same message at a near time |
| AuthStore.WithNotification | frontend/src/store/useAuthStore.js:29-39 | a repeat (same message within 2000 ms) is dropped; anything else is appended once |
| AuthStore.AddNotificationIdempotent | frontend/src/store/useAuthStore.js:26-44 | adding the same notification twice is adding it once, and a list with no repeats keeps none |
| AuthStore.DropIndex | frontend/src/store/useAuthStore.js:46-50 | exactly the element at the index is removed, others keep their order; an out-of-range index changes nothing |
| AuthStore.ClientSocket.Close | frontend/src/store/useAuthStore.js:124-127 | the listeners are removed and the socket disconnected |
| AuthStore.AuthStore.constructor | frontend/src/store/useAuthStore.js:10-23 | signed out, checking auth, no socket, and the saved notifications both in memory and in storage |
| AuthStore.AuthStore.AddNotification | frontend/src/store/useAuthStore.js:26-44 | the scan finds a repeat exactly when one exists; otherwise one entry is appended and the stored copy equals the list |
| AuthStore.AuthStore.RemoveNotification | frontend/src/store/useAuthStore.js:46-50 | the list loses the indexed entry and the stored copy equals it |
| AuthStore.AuthStore.OnGetOnlineUsers | frontend/src/store/useAuthStore.js:137-139 | the received list replaces `onlineUsers`; the user, socket, notifications, stored copy and `isCheckingAuth` stay as they were |
| AuthStore.AuthStore.OnPostLiked | frontend/src/store/useAuthStore.js:188-194 | a like notification with the current time is added, a repeat within 2000 ms dropped; the stored copy equals the new list after an append and is untouched after a repeat; nothing else changes |
| AuthStore.AuthStore.OnPostCommented | frontend/src/store/useAuthStore.js:196-202 | a comment notification with the current time is added, a repeat within 2000 ms dropped; the stored copy equals the new list after an append and is untouched after a repeat; nothing else changes |
| AuthStore.AuthStore.ConnectSocket | frontend/src/store/useAuthStore.js:118-136 | nothing happens when signed out; otherwise an existing socket is closed before a fresh one for the user replaces it |
| AuthStore.AuthStore.DisconnectSocket | frontend/src/store/useAuthStore.js:205-215 | a connected socket is closed; one already closed is left alone |
| AuthStore.AuthStore.CheckAuth | frontend/src/store/useAuthStore.js:52-63 | the answer becomes the signed-in user, `None` on failure; a user gets a fresh connected, listening socket and any old socket is closed and stops listening; on failure the old socket is untouched; `isCheckingAuth` ends false; notifications, their stored copy and the online list stay |
| FriendButton.Classify | frontend/src/Components/FriendButton.jsx:24-32 | priority: friends, then incoming, then outgoing, then none; each status exactly under its condition |
| FriendButton.AfterClick | frontend/src/Components/FriendButton.jsx:41-59 | none→outgoing, incoming→friends, friends→none, outgoing→none, loading stays |
| FriendButton.ClicksReturnToNone | frontend/src/Components/FriendButton.jsx:41-59 | every settled status returns to none within two clicks; a sent request is withdrawn by the next click |
| FriendButton.FriendButton.LoadData | frontend/src/Components/FriendButton.jsx:14-32 | without a user id nothing is loaded; otherwise the status is the classification |
| FriendButton.FriendButton.HandleClick | frontend/src/Components/FriendButton.jsx:38-61 | without a user id a click does nothing; otherwise the status follows `AfterClick` |
| FriendButton.FriendButton.Decline | frontend/src/Components/FriendButton.jsx:95-98 | the status becomes none |
| FriendsWidget.Suggestions | frontend/src/Components/FriendsWidget.jsx:70-76 | nobody without a signed-in user; otherwise exactly the users who are not oneself and whose id is in none of the friends, requests and sent-requests lists, each as often as listed, in order |
| FriendsWidget.MatchesQuery | frontend/src/Components/FriendsWidget.jsx:79-83 | an empty query matches everyone; otherwise the lower-cased name, or a non-empty lower-cased email, contains the lower-cased query |
| FriendsWidget.Search | frontend/src/Components/FriendsWidget.jsx:79-105 | exactly the records matching the query, each as often as listed, in order |
| FriendsWidget.EmptyQueryKeepsAll | frontend/src/Components/FriendsWidget.jsx:80-83 | an empty query keeps every record |
| FriendsWidget.ShownSuggestions | frontend/src/Components/FriendsWidget.jsx:112 | the first five matching suggestions, or all of them when fewer |
| FriendsWidget.ShownSuggestionsAreStrangers | frontend/src/Components/FriendsWidget.jsx:70-84 | a shown suggestion is never oneself and never carries an id found in the friends, requests or sent-requests list (also line 112) |
| FriendsWidget.LongerQueryNarrows | frontend/src/Components/FriendsWidget.jsx:79-84 | anyone matching a query extended at the end matches the shorter query |
| UserSearch.UserMatches | frontend/src/Components/UserSearch.jsx:49-50 | the lower-cased name or email contains the lower-cased, untrimmed query |
| UserSearch.SearchUsers | frontend/src/Components/UserSearch.jsx:46-51 | exactly the users other than oneself whose lower-cased name or email contains the lower-cased, untrimmed query, each as often as listed, in order |
| UserSearch.SameMatchAsSidebar | frontend/src/Components/UserSearch.jsx:46-51 | for a non-empty query the search box and the sidebar search match the same users |
| UserSearch.IsUserFriend | frontend/src/Components/UserSearch.jsx:62-64 | some friend has the id |
| UserSearch.HasPendingRequest | frontend/src/Components/UserSearch.jsx:71-73 | some sent request has a filled-in target with the id |
| UserSearch.BadgeFor | frontend/src/Components/UserSearch.jsx:163-179 | friends first, then request sent, then the add button, each exactly under its condition |
| UserSearch.UserSearch.HandleSearchChange | frontend/src/Components/UserSearch.jsx:34-55 | the query is kept; a blank query clears the results, another one yields its matches; `isSearching` ends false |
| Home.IsCurrentUserFriend | frontend/src/pages/Home.jsx:275-282 | false for an empty id or a missing list, otherwise some friend has the id |
| Home.HasPendingRequest | frontend/src/pages/Home.jsx:292-301 | false for an empty id or a missing list, otherwise some sent request's filled-in target has the id |
| Home.HasLikedPost | frontend/src/pages/Home.jsx:319-321 | the signed-in user's id is among the post's likes, false while either is missing |
| Home.ShowAddFriend | frontend/src/pages/Home.jsx:859-861 | Add Friend shows for a user who is no friend, has no pending request and is not the signed-in user |
| Home.CanLoadMore | frontend/src/pages/Home.jsx:325 | more posts are asked for only below the last page and while nothing loads |
| Home.AddFriendMatchesSearchBadge | frontend/src/pages/Home.jsx:275-301 | with loaded lists, Add Friend shows exactly where the search box shows its add button and not for oneself (also lines 859-861) |
| Home.LikeIndicatorFollowsAnswer | frontend/src/pages/Home.jsx:319-321 | after a like answer the post's like indicator shows exactly that answer |
| Home.Toggle | frontend/src/pages/Home.jsx:178-191 | one post's flag flips and no other's |
| Home.ToggleTwiceRestores | frontend/src/pages/Home.jsx:178-191 | toggling twice restores every flag |
| Home.SentCommentIsVisible | frontend/src/pages/Home.jsx:159-168 | a comment the page sends passes the server's text check and has a visible character |
| Home.Composer.HandleCreatePost | frontend/src/pages/Home.jsx:104-125 | blank text with no image is refused and nothing changes, in the composer or the store; otherwise the trimmed text and image are sent and creation ends; on success the post heads the feed, the total grows by one and text, image and preview are cleared; on failure feed, pagination and composer stay; comment state and the feed-loading flag never change |
| Home.Composer.HandleAddComment | frontend/src/pages/Home.jsx:159-168 | a missing or blank comment is refused and nothing changes; otherwise it is sent as typed, the comment is appended to that post on success, and the box is emptied and hidden either way; pagination, both loading flags, the post composer and the show-all flags never change |
| Home.Composer.ToggleCommentInput | frontend/src/pages/Home.jsx:178-183 | flips that post's comment box; comment texts, show-all flags, post text, image and preview stay |
| Home.Composer.ToggleAllComments | frontend/src/pages/Home.jsx:186-191 | flips whether that post shows all comments; comment texts, comment boxes, post text, image and preview stay |
| Home.HandleLoadMorePosts | frontend/src/pages/Home.jsx:324-328 | at the last page or while loading nothing is requested and the store stays; otherwise the next page is requested, loading ends, and on success its posts are appended and its pagination taken, on failure feed and pagination stay; the creating flag never changes |

## Left out

- Socket.IO transport: server creation, CORS, the HTTP server and the
  client `io(...)` call. Deliveries are log entries.
- `Socket.PresenceServer.Connect` requires the new socket id to be unused
  by the map. Socket.IO hands out fresh ids, and disconnect idempotence
  depends on it.
- Socket ids are assumed non-empty. A mapped empty id would be skipped by
  `if (receiverSocketId)`, and the model routes to it.
- A user id that names a prototype member of a JavaScript object
  (`"constructor"`) is treated like any other key. So is a user id that
  looks like an array index (`"5"`): `Object.keys` lists such keys first,
  in ascending numeric order, and the model keeps every key in insertion
  order. MongoDB ids are 24-character hexadecimal strings, too long to be
  array indices.
- Database I/O: `findById`, `populate` projections, `save`,
  `countDocuments` and the `createdAt` sort. Stores are in-memory values,
  and posts are kept newest first.
- `PostController.GetPosts` parses no strings. Queries are optional
  integers, so `parseInt` of malformed text is not modelled. A negative
  skip is a failed query. A negative limit uses its absolute value, as the
  database does.
- Cloudinary upload and destroy. The upload URL is a parameter, and
  `DeletePost` returns the public id it would destroy.
- `PostStore.PostStore.LikePost` assumes a signed-in user. The store would
  append `undefined` otherwise.
- HTTP calls from the stores. Each answer, or its failure, is an input.
  Toasts, console logging, `FileReader`, and the JSON serialisation of
  local storage are left out. The stored list is a field.
- Async interleavings. Each action is one atomic step, so `Promise.all`,
  timers and races between handlers are not modelled. Two requests can
  both pass `sendRequest`'s duplicate check before either saves
  (backend/src/controllers/friend.controller.js:49-66), and the model
  cannot show that.
- Half-applied updates. Accepting a request saves it and then updates the
  two users one after the other
  (backend/src/controllers/friend.controller.js:120-130). Removing a
  friend also makes two separate updates (lines 175-183). A failure or a
  concurrent request between these writes leaves a one-sided friendship.
  The model applies each handler whole, so `Database.BefriendKeepsGraph`
  and `Database.UnfriendKeepsGraph` cannot meet such a state.
- The catch-all 500. Every controller answers 500 when a database call
  throws, for example `findById` on a malformed id
  (backend/src/controllers/friend.controller.js:37, 104, 169;
  backend/src/controllers/post.controller.js:88, 139, 182). The model has
  no malformed ids, so it answers 404 where the server would answer 500.
- Dates. Times are integer milliseconds supplied by the caller.
  `toLowerCase` is modelled on ASCII letters only.
- `AuthStore.AuthStore.DisconnectSocket` marks the socket as no longer
  listening. The source removes only its four friend and presence
  listeners, and the model does not track listeners one by one.
- Login, signup, logout and profile update in the session store. These
  are outside the core.
- Null entries inside client lists (`friend && …`) and non-array lists.
  Lists are sequences; a missing list is `None`.
- `FriendButton` and `FriendsWidget` call store members the friend store
  does not define. Their rules are modelled over abstract lists, and no
  end-to-end claim is made across that mismatch. Both compare a user's id
  with the `_id` of each entry of `requests` and `sentRequests`
  (FriendsWidget.jsx:73-74, FriendButton.jsx:26-28). The model reads those
  lists as person lists. On the store's real request records, whose `_id`
  is the request's own id, that comparison never matches, so the request
  clauses of `Classify`, `Suggestions` and `ShownSuggestionsAreStrangers`
  describe the lists as the components read them, not the requests.
- The `friendAccepted` and `requestCanceled` listeners. The server never
  emits these events.
- The second friend-request design embedded in user records, and the
  admin page.
- Rendering, markup and routing.

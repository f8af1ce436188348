/**
 * The client's session store (frontend/src/store/useAuthStore.js): the
 * signed-in user, the socket connection, the list of online users and the
 * notification list, which is mirrored into the browser's local storage.
 *
 * Server answers and clock readings are inputs; times are milliseconds.
 */
module AuthStore {
  import opened Common
  import opened ClientData

  datatype NotificationKind = Like | CommentNote

  datatype Notification = Notification(message: string, time: int, kind: NotificationKind)

  /** Two times less than 2000 ms apart. */
  predicate Near(a: int, b: int) {
    -2000 < a - b < 2000
  }

  /** `n` repeats an entry of `ns`: the same message at a time less than 2000 ms away. */
  predicate Repeats(ns: seq<Notification>, n: Notification) {
    exists i :: 0 <= i < |ns| && ns[i].message == n.message && Near(ns[i].time, n.time)
  }

  /** What `addNotification` leaves: `ns` itself for a repeat, otherwise `ns` with `n` appended. */
  function WithNotification(ns: seq<Notification>, n: Notification): (r: seq<Notification>)
    ensures Repeats(ns, n) ==> r == ns
    ensures !Repeats(ns, n) ==> r == ns + [n]
    ensures Repeats(r, n)
  {
    if Repeats(ns, n) then ns
    else
      assert (ns + [n])[|ns|] == n;
      ns + [n]
  }

  /** No two entries share a message less than 2000 ms apart. */
  predicate Spread(ns: seq<Notification>) {
    forall i, j :: 0 <= i < j < |ns| ==> !(ns[i].message == ns[j].message && Near(ns[i].time, ns[j].time))
  }

  /**
   * Adding the same notification twice is adding it once, and adding keeps
   * a spread-out list spread out. (The two listeners a like or comment
   * event reaches build their own notifications with separate clock
   * readings; the second is dropped by the 2000 ms repeat window, not by
   * this idempotence.)
   */
  lemma {:induction false} AddNotificationIdempotent(ns: seq<Notification>, n: Notification)
    ensures WithNotification(WithNotification(ns, n), n) == WithNotification(ns, n)
    ensures Spread(ns) ==> Spread(WithNotification(ns, n))
  {
    var r := WithNotification(ns, n);
    if Spread(ns) && !Repeats(ns, n) {
      forall i, j | 0 <= i < j < |r| ensures !(r[i].message == r[j].message && Near(r[i].time, r[j].time)) {
        if j == |ns| {
          assert r[i] == ns[i] && r[j] == n;
          assert !(ns[i].message == n.message && Near(ns[i].time, n.time));
          assert Near(ns[i].time, n.time) <==> Near(n.time, ns[i].time);
        }
      }
    }
  }

  /** `ns.filter((_, i) => i !== index)`, scanning from position `from`. */
  function DropIndexFrom(ns: seq<Notification>, index: int, from: int): (r: seq<Notification>)
    decreases |ns|
  {
    if ns == [] then []
    else (if from == index then [] else [ns[0]]) + DropIndexFrom(ns[1..], index, from + 1)
  }

  /**
   * `removeNotification(index)`: exactly the element at `index` is removed
   * and the others keep their order; an index outside the list removes
   * nothing.
   */
  function DropIndex(ns: seq<Notification>, index: int): (r: seq<Notification>)
    ensures 0 <= index < |ns| ==> r == ns[..index] + ns[index + 1..]
    ensures !(0 <= index < |ns|) ==> r == ns
  {
    if 0 <= index < |ns| then
      DropIndexFromInside(ns, index, 0);
      DropIndexFrom(ns, index, 0)
    else
      DropIndexFromOutside(ns, index, 0);
      DropIndexFrom(ns, index, 0)
  }

  /** Scanning past no position equal to `index` keeps every element. */
  lemma {:induction false} DropIndexFromOutside(ns: seq<Notification>, index: int, from: int)
    requires !(from <= index < from + |ns|)
    ensures DropIndexFrom(ns, index, from) == ns
    decreases |ns|
  {
    if ns != [] {
      DropIndexFromOutside(ns[1..], index, from + 1);
      assert ns == [ns[0]] + ns[1..];
    }
  }

  /** Scanning past position `index` drops exactly the element there. */
  lemma {:induction false} DropIndexFromInside(ns: seq<Notification>, index: int, from: int)
    requires from <= index < from + |ns|
    ensures DropIndexFrom(ns, index, from) == ns[..index - from] + ns[index - from + 1..]
    decreases |ns|
  {
    if from == index {
      DropIndexFromOutside(ns[1..], index, from + 1);
    } else {
      DropIndexFromInside(ns[1..], index, from + 1);
      assert ns[..index - from] == [ns[0]] + ns[1..][..index - from - 1];
      assert ns[index - from + 1..] == ns[1..][index - from..];
    }
  }

  /** The client end of a socket connection, opened for one user. */
  class ClientSocket {
    const userId: UserId
    var connected: bool
    var listening: bool

    constructor (userId: UserId)
      ensures this.userId == userId && connected && listening
    {
      this.userId := userId;
      connected := true;
      listening := true;
    }

    /** `removeAllListeners()` and `disconnect()`. */
    method Close()
      modifies this
      ensures !connected && !listening
    {
      listening := false;
      connected := false;
    }
  }

  class AuthStore {
    var authUser: Option<Person>
    var isCheckingAuth: bool
    var onlineUsers: seq<UserId>
    var socket: Option<ClientSocket>
    var notifications: seq<Notification>
    /** The copy of `notifications` kept in local storage. */
    var persisted: seq<Notification>

    /** The store as a page load creates it, with the notifications saved by an earlier visit. */
    constructor (saved: seq<Notification>)
      ensures authUser.None? && isCheckingAuth && onlineUsers == [] && socket.None?
      ensures notifications == saved && persisted == saved
    {
      authUser := None;
      isCheckingAuth := true;
      onlineUsers := [];
      socket := None;
      notifications := saved;
      persisted := saved;
    }

    /**
     * `addNotification`: scans the list for a repeat; a repeat is dropped,
     * anything else is appended and the list written to local storage.
     */
    method AddNotification(n: Notification)
      modifies this
      ensures notifications == WithNotification(old(notifications), n)
      ensures !Repeats(old(notifications), n) ==> persisted == notifications
      ensures Repeats(old(notifications), n) ==> persisted == old(persisted)
      ensures authUser == old(authUser) && socket == old(socket) && onlineUsers == old(onlineUsers) && isCheckingAuth == old(isCheckingAuth)
    {
      var existing := notifications;
      var alreadyExists := false;
      var i := 0;
      while i < |existing| && !alreadyExists
        invariant 0 <= i <= |existing|
        invariant alreadyExists ==> Repeats(existing, n)
        invariant !alreadyExists ==> forall j :: 0 <= j < i ==> !(existing[j].message == n.message && Near(existing[j].time, n.time))
      {
        if existing[i].message == n.message && Near(existing[i].time, n.time) {
          alreadyExists := true;
        }
        i := i + 1;
      }
      if alreadyExists {
        return;
      }
      var updated := existing + [n];
      persisted := updated;
      notifications := updated;
    }

    /** `removeNotification(index)`: drops the entry at `index` and writes the list to local storage. */
    method RemoveNotification(index: int)
      modifies this
      ensures notifications == DropIndex(old(notifications), index) && persisted == notifications
      ensures authUser == old(authUser) && socket == old(socket) && onlineUsers == old(onlineUsers) && isCheckingAuth == old(isCheckingAuth)
    {
      var updated := DropIndex(notifications, index);
      persisted := updated;
      notifications := updated;
    }

    /** The `getOnlineUsers` listener: the received list replaces the online users. */
    method OnGetOnlineUsers(userIds: seq<UserId>)
      modifies this
      ensures onlineUsers == userIds
      ensures authUser == old(authUser) && socket == old(socket) && notifications == old(notifications) && persisted == old(persisted)
      ensures isCheckingAuth == old(isCheckingAuth)
    {
      onlineUsers := userIds;
    }

    /** The message a `postLiked` event shows. */
    static function LikedMessage(userName: string): string {
      userName + " đã thích bài viết của bạn"
    }

    /** The message a `postCommented` event shows. */
    static function CommentedMessage(userName: string): string {
      userName + " đã bình luận bài viết của bạn"
    }

    /** The `postLiked` listener: a like notification stamped with the current time. */
    method OnPostLiked(userName: string, now: int)
      modifies this
      ensures notifications == WithNotification(old(notifications), Notification(LikedMessage(userName), now, Like))
      ensures !Repeats(old(notifications), Notification(LikedMessage(userName), now, Like)) ==> persisted == notifications
      ensures Repeats(old(notifications), Notification(LikedMessage(userName), now, Like)) ==> persisted == old(persisted)
      ensures authUser == old(authUser) && socket == old(socket) && onlineUsers == old(onlineUsers) && isCheckingAuth == old(isCheckingAuth)
    {
      AddNotification(Notification(LikedMessage(userName), now, Like));
    }

    /** The `postCommented` listener: a comment notification stamped with the current time. */
    method OnPostCommented(userName: string, now: int)
      modifies this
      ensures notifications == WithNotification(old(notifications), Notification(CommentedMessage(userName), now, CommentNote))
      ensures !Repeats(old(notifications), Notification(CommentedMessage(userName), now, CommentNote)) ==> persisted == notifications
      ensures Repeats(old(notifications), Notification(CommentedMessage(userName), now, CommentNote)) ==> persisted == old(persisted)
      ensures authUser == old(authUser) && socket == old(socket) && onlineUsers == old(onlineUsers) && isCheckingAuth == old(isCheckingAuth)
    {
      AddNotification(Notification(CommentedMessage(userName), now, CommentNote));
    }

    /**
     * `connectSocket`: without a signed-in user nothing happens. Otherwise
     * the old socket, if any, is closed first and a fresh socket carrying
     * the user's id replaces it.
     */
    method ConnectSocket()
      modifies this, if socket.Some? then {socket.value} else {}
      ensures authUser == old(authUser) && onlineUsers == old(onlineUsers)
      ensures notifications == old(notifications) && persisted == old(persisted) && isCheckingAuth == old(isCheckingAuth)
      ensures authUser.None? ==> socket == old(socket) && (old(socket).Some? ==> unchanged(old(socket).value))
      ensures authUser.Some? ==>
                && socket.Some? && fresh(socket.value)
                && socket.value.userId == authUser.value.id && socket.value.connected && socket.value.listening
                && (old(socket).Some? ==> !old(socket).value.connected && !old(socket).value.listening)
    {
      if authUser.None? {
        return;
      }
      if socket.Some? {
        socket.value.Close();
      }
      var s := new ClientSocket(authUser.value.id);
      socket := Some(s);
    }

    /** `disconnectSocket`: a connected socket is closed; the store keeps its reference either way. */
    method DisconnectSocket()
      modifies if socket.Some? then {socket.value} else {}
      ensures socket.Some? && old(socket.value.connected) ==> !socket.value.connected && !socket.value.listening
      ensures socket.Some? && !old(socket.value.connected) ==> unchanged(socket.value)
    {
      if socket.Some? && socket.value.connected {
        socket.value.Close();
      }
    }

    /**
     * `checkAuth`: the answer becomes the signed-in user and, when there is
     * one, the socket is (re)connected; a failure signs the user out. The
     * check is over either way.
     */
    method CheckAuth(response: Option<Person>)
      modifies this, if socket.Some? then {socket.value} else {}
      ensures !isCheckingAuth && authUser == response
      ensures notifications == old(notifications) && persisted == old(persisted) && onlineUsers == old(onlineUsers)
      ensures response.None? ==> socket == old(socket)
      ensures response.Some? ==>
                && socket.Some? && fresh(socket.value)
                && socket.value.userId == response.value.id && socket.value.connected && socket.value.listening
      ensures old(socket).Some? && response.None? ==> unchanged(old(socket).value)
      ensures old(socket).Some? && response.Some? ==> !old(socket).value.connected && !old(socket).value.listening
    {
      authUser := response;
      if response.Some? {
        ConnectSocket();
      }
      isCheckingAuth := false;
    }
  }
}

// server/controllers/notificationController.js: a user's notifications, the
// bulk mark-as-read, and the unread badge count.
module NotificationController {
  import opened Common
  import opened Tables
  import opened Models
  import opened Store

  /** getNotifications: exactly the caller's notifications, newest first. */
  function GetNotifications(notifications: seq<Notification>, caller: Id): (r: seq<Row<Notification>>)
    ensures Descending(r)
    ensures forall x :: x in r <==> x.id < |notifications| && notifications[x.id] == x.doc
                                    && x.doc.recipient == caller
  {
    NewestFirst(Where(notifications, (n: Notification) => n.recipient == caller))
  }

  /** Whether n is one of `user`'s unread notifications. */
  predicate UnreadFor(n: Notification, user: Id)
  {
    n.recipient == user && !n.read
  }

  /** The table after `updateMany({ recipient, read: false }, { read: true })`. */
  function MarkedRead(notifications: seq<Notification>, user: Id): (r: seq<Notification>)
    ensures |r| == |notifications|
    ensures forall i :: 0 <= i < |r| ==> r[i] == (if notifications[i].recipient == user
                                                  then notifications[i].(read := true) else notifications[i])
  {
    seq(|notifications|, i requires 0 <= i < |notifications| =>
      if UnreadFor(notifications[i], user) then notifications[i].(read := true) else notifications[i])
  }

  /** Marking twice is marking once. */
  lemma MarkReadIdempotent(notifications: seq<Notification>, user: Id)
    ensures MarkedRead(MarkedRead(notifications, user), user) == MarkedRead(notifications, user)
  {
  }

  /** getUnreadCount: countDocuments({ recipient, read: false }). */
  function UnreadCount(notifications: seq<Notification>, user: Id): (n: nat)
    ensures n <= |notifications|
    ensures n == 0 <==> forall i :: 0 <= i < |notifications| ==> !UnreadFor(notifications[i], user)
  {
    CountWhere(notifications, (n: Notification) => UnreadFor(n, user))
  }

  /** Right after marking, the caller's badge is zero, and every other user's
      count is what it was. */
  lemma {:induction false} UnreadCountAfterMark(notifications: seq<Notification>, user: Id, other: Id)
    ensures UnreadCount(MarkedRead(notifications, user), user) == 0
    ensures other != user ==> UnreadCount(MarkedRead(notifications, user), other) == UnreadCount(notifications, other)
  {
    if other != user && |notifications| > 0 {
      var front := notifications[..|notifications| - 1];
      UnreadCountAfterMark(front, user, other);
      assert MarkedRead(notifications, user)[..|notifications| - 1] == MarkedRead(front, user);
    }
  }

  /** markNotificationsAsRead: the updateMany, document by document. */
  method MarkNotificationsAsRead(db: Db, caller: Caller)
    modifies db`notifications
    ensures db.notifications == MarkedRead(old(db.notifications), caller.id)
  {
    var i := 0;
    while i < |db.notifications|
      invariant i <= |db.notifications| == |old(db.notifications)|
      invariant forall j :: 0 <= j < i ==> db.notifications[j] == MarkedRead(old(db.notifications), caller.id)[j]
      invariant forall j :: i <= j < |db.notifications| ==> db.notifications[j] == old(db.notifications)[j]
    {
      if UnreadFor(db.notifications[i], caller.id) {
        db.notifications := db.notifications[i := db.notifications[i].(read := true)];
      }
      i := i + 1;
    }
  }
}

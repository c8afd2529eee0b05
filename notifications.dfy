/** The notification log (src/app/actions/notifications.ts): an append-only
    table each user reads and marks as read. */
module Notifications {
  import opened Wrappers
  import opened Schema
  import opened Ordering
  import opened Stores

  /** The record `createNotification` inserts. */
  function NewNotice(db: Db, userId: UserId, kind: NoticeType, message: string, link: Option<string>, now: nat): Notification
  {
    Notification(db.nextId, userId, kind, message, link, false, now)
  }

  /** `createNotification`: one unread record is appended when the insert
      goes through (`delivered`); a failed insert is swallowed and leaves the
      store as it was. Nothing but the log and the id counter changes. */
  function CreateNotificationStep(db: Db, userId: UserId, kind: NoticeType, message: string, link: Option<string>, now: nat, delivered: bool): (r: Db)
    ensures r.users == db.users && r.posts == db.posts && r.requests == db.requests
    ensures r.transactions == db.transactions && r.messages == db.messages
    ensures !delivered ==> r == db
    ensures delivered ==>
      && |r.notifications| == |db.notifications| + 1
      && r.notifications[..|db.notifications|] == db.notifications
      && r.notifications[|db.notifications|] == NewNotice(db, userId, kind, message, link, now)
      && r.nextId == db.nextId + 1
  {
    if delivered then
      db.(notifications := db.notifications + [NewNotice(db, userId, kind, message, link, now)],
          nextId := db.nextId + 1)
    else db
  }

  method CreateNotification(store: Store, userId: UserId, kind: NoticeType, message: string, link: Option<string>, now: nat, delivered: bool)
    modifies store
    ensures store.State() == CreateNotificationStep(old(store.State()), userId, kind, message, link, now, delivered)
  {
    if delivered {
      var id := store.FreshId();
      store.notifications := store.notifications + [Notification(id, userId, kind, message, link, false, now)];
    }
  }

  predicate IsTarget(n: Notification, user: UserId, id: Id)
  {
    n.id == id && n.userId == user
  }

  /** `markAsRead(id)`: the update matches on the id and on the signed-in
      user; when nothing matches the ORM throws and the action swallows it,
      so the log is unchanged either way except for the matching record. */
  function MarkAsReadStep(db: Db, actor: Option<UserId>, id: Id): (r: Db)
    ensures actor.None? ==> r == db
    ensures r.(notifications := db.notifications) == db
    ensures |r.notifications| == |db.notifications|
    ensures forall k :: 0 <= k < |db.notifications| ==>
      r.notifications[k] == if actor.Some? && IsTarget(db.notifications[k], actor.value, id)
                            then db.notifications[k].(read := true) else db.notifications[k]
  {
    match actor
    case None => db
    case Some(user) =>
      db.(notifications := seq(|db.notifications|, k requires 0 <= k < |db.notifications| =>
        if IsTarget(db.notifications[k], user, id) then db.notifications[k].(read := true)
        else db.notifications[k]))
  }

  method MarkAsRead(store: Store, actor: Option<UserId>, id: Id)
    modifies store
    ensures store.State() == MarkAsReadStep(old(store.State()), actor, id)
  {
    if actor.None? {
      return;
    }
    var user := actor.value;
    var ns := store.notifications;
    store.notifications := seq(|ns|, k requires 0 <= k < |ns| =>
      if IsTarget(ns[k], user, id) then ns[k].(read := true) else ns[k]);
  }

  /** `markAllAsRead`: every unread record of the signed-in user becomes
      read; other users' records are untouched. */
  function MarkAllAsReadStep(db: Db, actor: Option<UserId>): (r: Db)
    ensures actor.None? ==> r == db
    ensures r.(notifications := db.notifications) == db
    ensures |r.notifications| == |db.notifications|
    ensures forall k :: 0 <= k < |db.notifications| ==>
      r.notifications[k] == if actor.Some? && db.notifications[k].userId == actor.value
                            then db.notifications[k].(read := true) else db.notifications[k]
  {
    match actor
    case None => db
    case Some(user) =>
      db.(notifications := seq(|db.notifications|, k requires 0 <= k < |db.notifications| =>
        if db.notifications[k].userId == user && !db.notifications[k].read
        then db.notifications[k].(read := true) else db.notifications[k]))
  }

  method MarkAllAsRead(store: Store, actor: Option<UserId>)
    modifies store
    ensures store.State() == MarkAllAsReadStep(old(store.State()), actor)
  {
    if actor.None? {
      return;
    }
    var user := actor.value;
    var ns := store.notifications;
    store.notifications := seq(|ns|, k requires 0 <= k < |ns| =>
      if ns[k].userId == user && !ns[k].read then ns[k].(read := true) else ns[k]);
  }

  predicate UnreadFor(n: Notification, user: UserId)
  {
    n.userId == user && !n.read
  }

  /** `getUnreadCount`: how many of the signed-in user's records are unread;
      0 for a caller who is not signed in. */
  function GetUnreadCount(db: Db, actor: Option<UserId>): (r: nat)
    ensures actor.None? ==> r == 0
    ensures r <= |db.notifications|
    ensures actor.Some? ==>
      (r == 0 <==> forall k :: 0 <= k < |db.notifications| ==> !UnreadFor(db.notifications[k], actor.value))
    ensures actor.Some? ==> r == |Filter(db.notifications, n => UnreadFor(n, actor.value))|
  {
    match actor
    case None => 0
    case Some(user) =>
      CountFilter(db.notifications, n => UnreadFor(n, user));
      Count(db.notifications, n => UnreadFor(n, user))
  }

  /** `getNotifications`: the signed-in user's records and no others, newest
      first. */
  function GetNotifications(db: Db, actor: Option<UserId>): (r: seq<Notification>)
    ensures actor.None? ==> r == []
    ensures forall k :: 0 <= k < |r| ==> actor.Some? && r[k].userId == actor.value && r[k] in db.notifications
    ensures actor.Some? ==>
      forall k :: 0 <= k < |db.notifications| && db.notifications[k].userId == actor.value ==>
        db.notifications[k] in r
    ensures actor.Some? ==>
      multiset(r) == multiset(Filter(db.notifications, (n: Notification) => n.userId == actor.value))
    ensures SortedDesc(r, (n: Notification) => n.createdAt)
  {
    match actor
    case None => []
    case Some(user) =>
      QueryDesc(db.notifications, (n: Notification) => n.userId == user, (n: Notification) => n.createdAt)
  }

  /** Every record of the user is read once `markAllAsRead` has run. */
  lemma MarkAllAsReadClearsUnread(db: Db, user: UserId)
    ensures GetUnreadCount(MarkAllAsReadStep(db, Some(user)), Some(user)) == 0
  {
  }

  /** `markAllAsRead` is idempotent. */
  lemma MarkAllAsReadIdempotent(db: Db, actor: Option<UserId>)
    ensures MarkAllAsReadStep(MarkAllAsReadStep(db, actor), actor) == MarkAllAsReadStep(db, actor)
  {
    var once := MarkAllAsReadStep(db, actor);
    assert once.notifications == MarkAllAsReadStep(once, actor).notifications;
  }

  /** `markAsRead` is idempotent. */
  lemma MarkAsReadIdempotent(db: Db, actor: Option<UserId>, id: Id)
    ensures MarkAsReadStep(MarkAsReadStep(db, actor, id), actor, id) == MarkAsReadStep(db, actor, id)
  {
    var once := MarkAsReadStep(db, actor, id);
    assert once.notifications == MarkAsReadStep(once, actor, id).notifications;
  }

  /** The unread count of a log in which records were only marked read
      (pointwise) drops by the number of unread records that were marked. */
  lemma {:induction false} CountAfterMarking(before: seq<Notification>, after: seq<Notification>, user: UserId, hit: Notification -> bool)
    requires |after| == |before|
    requires forall k :: 0 <= k < |before| ==> after[k] == if hit(before[k]) then before[k].(read := true) else before[k]
    ensures Count(after, n => UnreadFor(n, user))
      == Count(before, n => UnreadFor(n, user)) - Count(before, n => hit(n) && UnreadFor(n, user))
  {
    if before != [] {
      CountAfterMarking(before[1..], after[1..], user, hit);
    }
  }

  /** Counting with two predicates that agree everywhere gives one number. */
  lemma {:induction false} CountSame(xs: seq<Notification>, f: Notification -> bool, g: Notification -> bool)
    requires forall n :: f(n) == g(n)
    ensures Count(xs, f) == Count(xs, g)
  {
    if xs != [] {
      CountSame(xs[1..], f, g);
    }
  }

  /** `markAsRead` lowers the user's unread count by exactly the number of
      that user's unread records with that id (one, when ids are unique). */
  lemma MarkAsReadCount(db: Db, user: UserId, id: Id)
    ensures GetUnreadCount(MarkAsReadStep(db, Some(user), id), Some(user))
      == GetUnreadCount(db, Some(user))
         - Count(db.notifications, n => IsTarget(n, user, id) && UnreadFor(n, user))
  {
    var hit := (n: Notification) => IsTarget(n, user, id);
    var after := MarkAsReadStep(db, Some(user), id).notifications;
    assert forall k :: 0 <= k < |db.notifications| ==>
      after[k] == if hit(db.notifications[k]) then db.notifications[k].(read := true) else db.notifications[k];
    CountAfterMarking(db.notifications, after, user, hit);
    CountSame(db.notifications, n => hit(n) && UnreadFor(n, user), n => IsTarget(n, user, id) && UnreadFor(n, user));
  }

  /** Marking one user's records never changes another user's unread count. */
  lemma {:induction false} MarkAllAsReadOthersUnchanged(db: Db, user: UserId, other: UserId)
    requires other != user
    ensures GetUnreadCount(MarkAllAsReadStep(db, Some(user)), Some(other)) == GetUnreadCount(db, Some(other))
  {
    var hit := (n: Notification) => n.userId == user;
    var after := MarkAllAsReadStep(db, Some(user)).notifications;
    assert forall k :: 0 <= k < |db.notifications| ==>
      after[k] == if hit(db.notifications[k]) then db.notifications[k].(read := true) else db.notifications[k];
    CountAfterMarking(db.notifications, after, other, hit);
    assert Count(db.notifications, n => hit(n) && UnreadFor(n, other)) == 0;
  }
}

/** The donation lifecycle as a whole: what every action keeps true of the
    store, and what follows for any sequence of actions. */
module Lifecycle {
  import opened Wrappers
  import opened Schema
  import opened Users
  import opened Transactions
  import Posts
  import ManagePosts
  import Requests
  import ManageRequests
  import Notifications
  import Chat
  import Text

  /** RESERVED and COMPLETED: the statuses a post reaches through a
      transaction and never leaves. */
  predicate Closed(s: PostStatus)
  {
    s == Reserved || s == PostStatus.Completed
  }

  /** Every row sits under its own id, and every id is one already handed out. */
  ghost predicate Keyed(db: Db)
  {
    && (forall u :: u in db.users ==> db.users[u].id == u)
    && (forall id :: id in db.posts ==> db.posts[id].id == id && id < db.nextId)
    && (forall id :: id in db.requests ==> db.requests[id].id == id && id < db.nextId)
    && (forall id :: id in db.transactions ==> db.transactions[id].id == id && id < db.nextId)
    && (forall k :: 0 <= k < |db.notifications| ==> db.notifications[k].id < db.nextId)
    && (forall k :: 0 <= k < |db.messages| ==> db.messages[k].id < db.nextId)
  }

  /** Every reference names an existing row. */
  ghost predicate Linked(db: Db)
  {
    && (forall id :: id in db.posts ==> db.posts[id].donorId in db.users)
    && (forall id :: id in db.requests ==>
          db.requests[id].postId in db.posts && db.requests[id].receiverId in db.users)
    && (forall id :: id in db.transactions ==>
          && db.transactions[id].postId in db.posts
          && db.transactions[id].donorId in db.users && db.transactions[id].receiverId in db.users)
    && (forall k :: 0 <= k < |db.messages| ==> db.messages[k].transactionId in db.transactions)
  }

  /** A transaction of `receiver` exists for the post. */
  ghost predicate ReservedFor(db: Db, postId: Id, receiver: UserId)
  {
    exists t :: t in db.transactions && db.transactions[t].postId == postId && db.transactions[t].receiverId == receiver
  }

  /** One transaction per post, made by the post's donor, with the chat room
      named after its creation; a post is closed exactly when it has one. */
  ghost predicate Reservations(db: Db)
  {
    && (forall a, b ::
          (a in db.transactions && b in db.transactions && db.transactions[a].postId == db.transactions[b].postId)
          ==> a == b)
    && (forall id :: id in db.transactions ==>
          var t := db.transactions[id];
          && t.postId in db.posts && Closed(db.posts[t.postId].status)
          && db.posts[t.postId].donorId == t.donorId
          && t.createdAt >= 0 && t.chatRoomId == ChatRoomId(t.createdAt, t.postId)
          && (t.status == TxStatus.Completed ==> t.completedAt.Some?))
    && (forall p :: p in db.posts && Closed(db.posts[p].status) ==> PostHasTransaction(db, p))
  }

  /** One request per (post, receiver), never by the post's donor; PENDING
      only on an open post, decided only once a transaction exists, and
      ACCEPTED only for the transaction's receiver. */
  ghost predicate RequestsSound(db: Db)
  {
    && (forall a, b ::
          (&& a in db.requests && b in db.requests
           && db.requests[a].postId == db.requests[b].postId
           && db.requests[a].receiverId == db.requests[b].receiverId)
          ==> a == b)
    && (forall id :: id in db.requests ==>
          var q := db.requests[id];
          && q.postId in db.posts && q.receiverId != db.posts[q.postId].donorId
          && (q.status == Pending ==> !Closed(db.posts[q.postId].status))
          && (q.status != Pending ==> PostHasTransaction(db, q.postId))
          && (q.status == RequestStatus.Accepted ==> ReservedFor(db, q.postId, q.receiverId)))
  }

  ghost predicate Inv(db: Db)
  {
    Keyed(db) && Linked(db) && Reservations(db) && RequestsSound(db)
  }

  lemma EmptyInv()
    ensures Inv(EmptyDb)
  {
  }

  /** Get-or-create keeps every user under its own id. */
  lemma EnsureUserKeyed(users: map<UserId, User>, id: UserId, p: Profile, role: Role)
    requires CanUpsert(users, id, p) && forall u :: u in users ==> users[u].id == u
    ensures var users' := EnsureUser(users, id, p, role);
      forall u :: u in users' ==> users'[u].id == u
  {
  }

  /** Adding or refreshing users keeps the invariant: the other tables only
      ask that the users they name exist. */
  lemma UsersGrowKeepsInv(db: Db, users: map<UserId, User>)
    requires Inv(db)
    requires db.users.Keys <= users.Keys && forall u :: u in users ==> users[u].id == u
    ensures Inv(db.(users := users))
  {
    var db' := db.(users := users);
    assert forall p :: PostHasTransaction(db', p) == PostHasTransaction(db, p);
    assert forall p, u :: ReservedFor(db', p, u) == ReservedFor(db, p, u);
  }

  /** A new post opens under the next id. */
  lemma AddOpenPostKeepsInv(db: Db, post: Post)
    requires Inv(db)
    requires post.id == db.nextId && !Closed(post.status) && post.donorId in db.users
    ensures Inv(db.(posts := db.posts[db.nextId := post], nextId := db.nextId + 1))
  {
    var db' := db.(posts := db.posts[db.nextId := post], nextId := db.nextId + 1);
    assert db.nextId !in db.posts;
    AddOpenPostKeyed(db, post);
    AddOpenPostLinked(db, post);
    AddOpenPostReservations(db, post);
    AddOpenPostRequests(db, post);
  }

  lemma AddOpenPostKeyed(db: Db, post: Post)
    requires Keyed(db) && post.id == db.nextId
    ensures Keyed(db.(posts := db.posts[db.nextId := post], nextId := db.nextId + 1))
  {
  }

  lemma AddOpenPostLinked(db: Db, post: Post)
    requires Linked(db) && post.donorId in db.users
    ensures Linked(db.(posts := db.posts[db.nextId := post], nextId := db.nextId + 1))
  {
  }

  lemma AddOpenPostReservations(db: Db, post: Post)
    requires Keyed(db) && Reservations(db) && !Closed(post.status)
    ensures Reservations(db.(posts := db.posts[db.nextId := post], nextId := db.nextId + 1))
  {
    AddOpenPostTransactions(db, post);
    AddOpenPostClosedReserved(db, post);
  }

  lemma AddOpenPostTransactions(db: Db, post: Post)
    requires Keyed(db) && Reservations(db)
    ensures var db' := db.(posts := db.posts[db.nextId := post], nextId := db.nextId + 1);
      forall id :: id in db'.transactions ==>
        var t := db'.transactions[id];
        && t.postId in db'.posts && Closed(db'.posts[t.postId].status)
        && db'.posts[t.postId].donorId == t.donorId
  {
    assert db.nextId !in db.posts;
  }

  lemma AddOpenPostClosedReserved(db: Db, post: Post)
    requires Keyed(db) && Reservations(db) && !Closed(post.status)
    ensures var db' := db.(posts := db.posts[db.nextId := post], nextId := db.nextId + 1);
      forall p :: p in db'.posts && Closed(db'.posts[p].status) ==> PostHasTransaction(db', p)
  {
    var db' := db.(posts := db.posts[db.nextId := post], nextId := db.nextId + 1);
    forall p | p in db'.posts && Closed(db'.posts[p].status) ensures PostHasTransaction(db', p) {
      assert PostHasTransaction(db, p);
    }
  }

  lemma AddOpenPostRequests(db: Db, post: Post)
    requires Keyed(db) && RequestsSound(db)
    ensures RequestsSound(db.(posts := db.posts[db.nextId := post], nextId := db.nextId + 1))
  {
    var db' := db.(posts := db.posts[db.nextId := post], nextId := db.nextId + 1);
    assert db.nextId !in db.posts;
    assert forall p :: PostHasTransaction(db', p) == PostHasTransaction(db, p);
    assert forall p, u :: ReservedFor(db', p, u) == ReservedFor(db, p, u);
  }

  /** The two outcomes of the write phase of `createPost` once the donor
      can be got or created, as table updates. */
  lemma InsertPostShape(db: Db, donor: UserId, profile: Profile, form: Form, env: Env)
    requires Posts.FormValid(form, env) && CanUpsert(db.users, donor, profile)
    ensures var r := Posts.InsertPost(db, donor, profile, form, env);
      var db1 := db.(users := EnsureUser(db.users, donor, profile, Donor));
      && (r.reply.success ==> db.nextId !in db.posts)
      && (r.reply.success ==>
            && db.nextId in r.db.posts
            && r.db == db1.(posts := db1.posts[db.nextId := r.db.posts[db.nextId]], nextId := db.nextId + 1)
            && r.db.posts[db.nextId].id == db.nextId && r.db.posts[db.nextId].status == Active
            && r.db.posts[db.nextId].donorId == donor)
      && (!r.reply.success ==> r.db == db1)
  {
  }

  lemma InsertPostKeepsInv(db: Db, donor: UserId, profile: Profile, form: Form, env: Env)
    requires Inv(db) && Posts.FormValid(form, env)
    ensures Inv(Posts.InsertPost(db, donor, profile, form, env).db)
  {
    if CanUpsert(db.users, donor, profile) {
      InsertPostShape(db, donor, profile, form, env);
      InsertPostOutcomeKeepsInv(db, donor, profile, Posts.InsertPost(db, donor, profile, form, env));
    }
  }

  /** Either outcome of the write phase of `createPost` keeps the invariant. */
  lemma InsertPostOutcomeKeepsInv(db: Db, donor: UserId, profile: Profile, r: Step<Reply>)
    requires Inv(db) && CanUpsert(db.users, donor, profile)
    requires var db1 := db.(users := EnsureUser(db.users, donor, profile, Donor));
      && (r.reply.success ==>
            && db.nextId in r.db.posts
            && r.db == db1.(posts := db1.posts[db.nextId := r.db.posts[db.nextId]], nextId := db.nextId + 1)
            && r.db.posts[db.nextId].id == db.nextId && r.db.posts[db.nextId].status == Active
            && r.db.posts[db.nextId].donorId == donor)
      && (!r.reply.success ==> r.db == db1)
    ensures Inv(r.db)
  {
    EnsureUserKeyed(db.users, donor, profile, Donor);
    var db1 := db.(users := EnsureUser(db.users, donor, profile, Donor));
    UsersGrowKeepsInv(db, db1.users);
    if r.reply.success {
      OpenPostKeepsInv(db1, r.db.posts[db.nextId], r.db);
    } else {
      SameInv(db1, r.db);
    }
  }

  lemma SameInv(db: Db, db': Db)
    requires Inv(db) && db' == db
    ensures Inv(db')
  {
  }

  lemma OpenPostKeepsInv(db: Db, post: Post, db': Db)
    requires Inv(db)
    requires post.id == db.nextId && !Closed(post.status) && post.donorId in db.users
    requires db' == db.(posts := db.posts[db.nextId := post], nextId := db.nextId + 1)
    ensures Inv(db')
  {
    AddOpenPostKeepsInv(db, post);
  }

  lemma CreatePostKeepsInv(db: Db, actor: Option<UserId>, profile: Option<Profile>, form: Form, env: Env)
    requires Inv(db)
    ensures Inv(Posts.CreatePostStep(db, actor, profile, form, env).db)
  {
    if actor.Some? && profile.Some? && Posts.FormValid(form, env) {
      InsertPostKeepsInv(db, actor.value, profile.value, form, env);
    }
  }

  /** A notice appended under the next id keeps the invariant; so does a
      notice that never got through. */
  lemma NotifyKeepsInv(db: Db, userId: UserId, kind: NoticeType, message: string, link: Option<string>,
                       now: nat, delivered: bool)
    requires Inv(db)
    ensures Inv(Notifications.CreateNotificationStep(db, userId, kind, message, link, now, delivered))
  {
    var db' := Notifications.CreateNotificationStep(db, userId, kind, message, link, now, delivered);
    if delivered {
      assert forall p :: PostHasTransaction(db', p) == PostHasTransaction(db, p);
      assert forall p, u :: ReservedFor(db', p, u) == ReservedFor(db, p, u);
      forall k | 0 <= k < |db'.notifications| ensures db'.notifications[k].id < db'.nextId {
        if k < |db.notifications| {
          assert db'.notifications[k] == db.notifications[k];
        }
      }
    }
  }

  /** Marking notices as read touches no id and no other table. */
  lemma ReadMarksKeepInv(db: Db, ns: seq<Notification>)
    requires Inv(db) && |ns| == |db.notifications|
    requires forall k :: 0 <= k < |ns| ==> ns[k].id == db.notifications[k].id
    ensures Inv(db.(notifications := ns))
  {
    var db' := db.(notifications := ns);
    assert forall p :: PostHasTransaction(db', p) == PostHasTransaction(db, p);
    assert forall p, u :: ReservedFor(db', p, u) == ReservedFor(db, p, u);
  }

  lemma MarkAsReadKeepsInv(db: Db, actor: Option<UserId>, id: Id)
    requires Inv(db)
    ensures Inv(Notifications.MarkAsReadStep(db, actor, id))
  {
    var db' := Notifications.MarkAsReadStep(db, actor, id);
    assert db' == db.(notifications := db'.notifications);
    ReadMarksKeepInv(db, db'.notifications);
  }

  lemma MarkAllAsReadKeepsInv(db: Db, actor: Option<UserId>)
    requires Inv(db)
    ensures Inv(Notifications.MarkAllAsReadStep(db, actor))
  {
    var db' := Notifications.MarkAllAsReadStep(db, actor);
    assert db' == db.(notifications := db'.notifications);
    ReadMarksKeepInv(db, db'.notifications);
  }

  /** A post rewritten in place, with its id, its donor and its closedness
      kept, keeps the invariant. */
  lemma ReplacePostKeepsInv(db: Db, id: Id, post: Post)
    requires Inv(db) && id in db.posts
    requires post.id == id && post.donorId == db.posts[id].donorId
    requires Closed(post.status) == Closed(db.posts[id].status)
    ensures Inv(db.(posts := db.posts[id := post]))
  {
    ReplacePostKeyed(db, id, post);
    ReplacePostLinked(db, id, post);
    ReplacePostReservations(db, id, post);
    ReplacePostRequests(db, id, post);
  }

  lemma ReplacePostKeyed(db: Db, id: Id, post: Post)
    requires Keyed(db) && id in db.posts && post.id == id
    ensures Keyed(db.(posts := db.posts[id := post]))
  {
  }

  lemma ReplacePostLinked(db: Db, id: Id, post: Post)
    requires Linked(db) && id in db.posts && post.donorId == db.posts[id].donorId
    ensures Linked(db.(posts := db.posts[id := post]))
  {
  }

  lemma ReplacePostReservations(db: Db, id: Id, post: Post)
    requires Reservations(db) && id in db.posts && post.donorId == db.posts[id].donorId
    requires Closed(post.status) == Closed(db.posts[id].status)
    ensures Reservations(db.(posts := db.posts[id := post]))
  {
    var db' := db.(posts := db.posts[id := post]);
    forall p | p in db'.posts && Closed(db'.posts[p].status) ensures PostHasTransaction(db', p) {
      assert PostHasTransaction(db, p);
    }
  }

  lemma ReplacePostRequests(db: Db, id: Id, post: Post)
    requires RequestsSound(db) && id in db.posts && post.donorId == db.posts[id].donorId
    requires Closed(post.status) == Closed(db.posts[id].status)
    ensures RequestsSound(db.(posts := db.posts[id := post]))
  {
    var db' := db.(posts := db.posts[id := post]);
    assert forall p :: PostHasTransaction(db', p) == PostHasTransaction(db, p);
    assert forall p, u :: ReservedFor(db', p, u) == ReservedFor(db, p, u);
  }

  lemma UpdatePostKeepsInv(db: Db, actor: Option<UserId>, postId: Id, form: Form, env: Env)
    requires Inv(db)
    ensures Inv(ManagePosts.UpdatePostStep(db, actor, postId, form, env).db)
  {
    var r := ManagePosts.UpdatePostStep(db, actor, postId, form, env);
    if r.reply.success {
      ReplacePostKeepsInv(db, postId, r.db.posts[postId]);
      assert r.db == db.(posts := db.posts[postId := r.db.posts[postId]]);
    }
  }

  lemma TogglePostStatusKeepsInv(db: Db, actor: Option<UserId>, postId: Id)
    requires Inv(db)
    ensures Inv(ManagePosts.TogglePostStatusStep(db, actor, postId).db)
  {
    var r := ManagePosts.TogglePostStatusStep(db, actor, postId);
    if r.reply.success {
      ReplacePostKeepsInv(db, postId, r.db.posts[postId]);
      assert r.db == db.(posts := db.posts[postId := r.db.posts[postId]]);
    }
  }

  /** A post without a transaction goes, and its requests with it. */
  lemma RemovePostKeepsInv(db: Db, postId: Id)
    requires Inv(db) && !PostHasTransaction(db, postId)
    ensures Inv(db.(requests := ManagePosts.DeleteRequestsOf(db.requests, postId), posts := db.posts - {postId}))
  {
    RemovePostKeyed(db, postId);
    RemovePostLinked(db, postId);
    RemovePostReservations(db, postId);
    RemovePostRequests(db, postId);
  }

  lemma RemovePostKeyed(db: Db, postId: Id)
    requires Keyed(db)
    ensures Keyed(db.(requests := ManagePosts.DeleteRequestsOf(db.requests, postId), posts := db.posts - {postId}))
  {
  }

  lemma RemovePostLinked(db: Db, postId: Id)
    requires Linked(db) && !PostHasTransaction(db, postId)
    ensures Linked(db.(requests := ManagePosts.DeleteRequestsOf(db.requests, postId), posts := db.posts - {postId}))
  {
    forall id | id in db.transactions ensures db.transactions[id].postId != postId {
    }
  }

  lemma RemovePostReservations(db: Db, postId: Id)
    requires Reservations(db) && !PostHasTransaction(db, postId)
    ensures Reservations(db.(requests := ManagePosts.DeleteRequestsOf(db.requests, postId), posts := db.posts - {postId}))
  {
    var db' := db.(requests := ManagePosts.DeleteRequestsOf(db.requests, postId), posts := db.posts - {postId});
    forall id | id in db.transactions ensures db.transactions[id].postId != postId {
    }
    assert forall p :: PostHasTransaction(db', p) == PostHasTransaction(db, p);
  }

  lemma RemovePostRequests(db: Db, postId: Id)
    requires RequestsSound(db)
    ensures RequestsSound(db.(requests := ManagePosts.DeleteRequestsOf(db.requests, postId), posts := db.posts - {postId}))
  {
    var db' := db.(requests := ManagePosts.DeleteRequestsOf(db.requests, postId), posts := db.posts - {postId});
    assert forall p :: PostHasTransaction(db', p) == PostHasTransaction(db, p);
    assert forall p, u :: ReservedFor(db', p, u) == ReservedFor(db, p, u);
  }

  lemma DeletePostKeepsInv(db: Db, actor: Option<UserId>, postId: Id)
    requires Inv(db)
    ensures Inv(ManagePosts.DeletePostStep(db, actor, postId).db)
  {
    var r := ManagePosts.DeletePostStep(db, actor, postId);
    if r.reply.success {
      RemovePostKeepsInv(db, postId);
      assert r.db == db.(requests := ManagePosts.DeleteRequestsOf(db.requests, postId), posts := db.posts - {postId});
    }
  }

  /** A PENDING request on an ACTIVE post, by someone other than its donor
      and the first of that receiver on that post, opens under the next id. */
  lemma AddRequestKeepsInv(db: Db, q: Request, db': Db)
    requires Inv(db)
    requires && q.id == db.nextId && q.status == Pending && q.receiverId in db.users
             && q.postId in db.posts && db.posts[q.postId].status == Active
             && q.receiverId != db.posts[q.postId].donorId
             && !Requests.HasRequested(db.requests, q.postId, q.receiverId)
    requires db' == db.(requests := db.requests[db.nextId := q], nextId := db.nextId + 1)
    ensures Inv(db')
  {
    assert db.nextId !in db.requests;
    AddRequestKeyed(db, q);
    AddRequestLinked(db, q);
    AddRequestReservations(db, q);
    AddRequestRequests(db, q);
  }

  lemma AddRequestKeyed(db: Db, q: Request)
    requires Keyed(db) && q.id == db.nextId
    ensures Keyed(db.(requests := db.requests[db.nextId := q], nextId := db.nextId + 1))
  {
  }

  lemma AddRequestLinked(db: Db, q: Request)
    requires Linked(db) && q.postId in db.posts && q.receiverId in db.users
    ensures Linked(db.(requests := db.requests[db.nextId := q], nextId := db.nextId + 1))
  {
  }

  lemma AddRequestReservations(db: Db, q: Request)
    requires Reservations(db)
    ensures Reservations(db.(requests := db.requests[db.nextId := q], nextId := db.nextId + 1))
  {
    var db' := db.(requests := db.requests[db.nextId := q], nextId := db.nextId + 1);
    assert forall p :: PostHasTransaction(db', p) == PostHasTransaction(db, p);
  }

  lemma AddRequestRequests(db: Db, q: Request)
    requires RequestsSound(db) && db.nextId !in db.requests
    requires && q.status == Pending && q.postId in db.posts && db.posts[q.postId].status == Active
             && q.receiverId != db.posts[q.postId].donorId
             && !Requests.HasRequested(db.requests, q.postId, q.receiverId)
    ensures RequestsSound(db.(requests := db.requests[db.nextId := q], nextId := db.nextId + 1))
  {
    var db' := db.(requests := db.requests[db.nextId := q], nextId := db.nextId + 1);
    assert forall p :: PostHasTransaction(db', p) == PostHasTransaction(db, p);
    assert forall p, u :: ReservedFor(db', p, u) == ReservedFor(db, p, u);
    forall a, b | (&& a in db'.requests && b in db'.requests
                   && db'.requests[a].postId == db'.requests[b].postId
                   && db'.requests[a].receiverId == db'.requests[b].receiverId)
      ensures a == b
    {
      if (a == db.nextId) != (b == db.nextId) {
        assert Requests.HasRequested(db.requests, q.postId, q.receiverId);
      }
    }
  }

  /** The checks and writes after the user upsert of `createRequest`. */
  lemma PlaceRequestKeepsInv(db: Db, user: UserId, postId: Id, message: string, now: nat, delivered: bool)
    requires Inv(db) && user in db.users
    ensures Inv(Requests.PlaceRequest(db, user, postId, message, now, delivered).db)
  {
    PlaceRequestShape(db, user, postId, message, now, delivered);
    PlaceRequestOutcomeKeepsInv(db, user, postId, message, now, delivered,
                                Requests.PlaceRequest(db, user, postId, message, now, delivered));
  }

  /** The outcome of placing a request, as table updates. */
  ghost predicate PlacedAs(db: Db, user: UserId, postId: Id, message: string, now: nat, delivered: bool, r: Step<Reply>)
    requires user in db.users
  {
    && (r.reply.success ==>
          && postId in db.posts && db.posts[postId].status == Active && db.posts[postId].donorId != user
          && !Requests.HasRequested(db.requests, postId, user)
          && r.db == Notifications.CreateNotificationStep(
               db.(requests := db.requests[db.nextId := Request(db.nextId, postId, user, message, Pending, now)],
                   nextId := db.nextId + 1),
               db.posts[postId].donorId, Info, Requests.RequestNotice(db.users[user].name),
               Some(Requests.RequestsLink), now, delivered))
    && (!r.reply.success ==> r.db == db)
  }

  lemma PlaceRequestShape(db: Db, user: UserId, postId: Id, message: string, now: nat, delivered: bool)
    requires user in db.users
    ensures PlacedAs(db, user, postId, message, now, delivered, Requests.PlaceRequest(db, user, postId, message, now, delivered))
  {
  }

  lemma PlaceRequestOutcomeKeepsInv(db: Db, user: UserId, postId: Id, message: string, now: nat, delivered: bool,
                                    r: Step<Reply>)
    requires Inv(db) && user in db.users && PlacedAs(db, user, postId, message, now, delivered, r)
    ensures Inv(r.db)
  {
    if r.reply.success {
      var q := Request(db.nextId, postId, user, message, Pending, now);
      var db2 := db.(requests := db.requests[db.nextId := q], nextId := db.nextId + 1);
      AddRequestKeepsInv(db, q, db2);
      NotifyKeepsInv(db2, db.posts[postId].donorId, Info, Requests.RequestNotice(db.users[user].name),
                     Some(Requests.RequestsLink), now, delivered);
    }
  }

  lemma CreateRequestKeepsInv(db: Db, actor: Option<UserId>, profile: Option<Profile>, form: Requests.RequestForm,
                              now: nat, delivered: bool)
    requires Inv(db)
    ensures Inv(Requests.CreateRequestStep(db, actor, profile, form, now, delivered).db)
  {
    if (&& actor.Some? && form.postId.Some? && Filled(form.message) && profile.Some?
        && CanUpsert(db.users, actor.value, profile.value)) {
      var db1 := Requests.WithReceiver(db, actor.value, profile.value);
      EnsureUserKeyed(db.users, actor.value, profile.value, Receiver);
      UsersGrowKeepsInv(db, db1.users);
      PlaceRequestKeepsInv(db1, actor.value, form.postId.value, form.message.value, now, delivered);
    }
  }

  /** Withdrawing a request only removes it. */
  lemma CancelRequestKeepsInv(db: Db, actor: Option<UserId>, requestId: Id)
    requires Inv(db)
    ensures Inv(ManageRequests.CancelRequestStep(db, actor, requestId).db)
  {
    var r := ManageRequests.CancelRequestStep(db, actor, requestId);
    if r.reply.success {
      var db' := db.(requests := db.requests - {requestId});
      assert forall p :: PostHasTransaction(db', p) == PostHasTransaction(db, p);
      assert forall p, u :: ReservedFor(db', p, u) == ReservedFor(db, p, u);
      SameInv(db', r.db);
    }
  }

  /** An ACTIVE post has no transaction yet. */
  lemma ActiveHasNoTransaction(db: Db, postId: Id)
    requires Reservations(db) && postId in db.posts && db.posts[postId].status == Active
    ensures !PostHasTransaction(db, postId)
  {
  }

  /** Under the invariant the insert of `acceptRequest` never collides:
      the id is fresh, an ACTIVE post has no transaction, and a chat room
      names its post. The generic failure is unreachable. */
  lemma AcceptNeverCollides(db: Db, postId: Id, now: nat)
    requires Inv(db) && postId in db.posts && db.posts[postId].status == Active
    ensures !InsertCollides(db, postId, ChatRoomId(now, postId))
  {
    ActiveHasNoTransaction(db, postId);
    if ChatRoomTaken(db, ChatRoomId(now, postId)) {
      var t :| t in db.transactions && db.transactions[t].chatRoomId == ChatRoomId(now, postId);
      ChatRoomIdInjective(db.transactions[t].createdAt, db.transactions[t].postId, now, postId);
    }
  }

  /** So a donor who owns an ACTIVE post can always accept a request on it. */
  lemma AcceptSucceeds(db: Db, donor: UserId, requestId: Id, now: nat)
    requires Inv(db) && donor in db.users && requestId in db.requests
    requires db.posts[db.requests[requestId].postId].donorId == donor
    requires db.posts[db.requests[requestId].postId].status == Active
    ensures AcceptRequestStep(db, Some(donor), requestId, now).reply.Matched?
  {
    AcceptNeverCollides(db, db.requests[requestId].postId, now);
  }

  lemma AcceptKeepsInv(db: Db, actor: Option<UserId>, requestId: Id, now: nat)
    requires Inv(db)
    ensures Inv(AcceptRequestStep(db, actor, requestId, now).db)
  {
    var r := AcceptRequestStep(db, actor, requestId, now);
    if r.reply.Matched? {
      var p := db.requests[requestId].postId;
      ActiveHasNoTransaction(db, p);
      AcceptKeyed(db, r.db, requestId, actor.value, now, r.reply.transactionId, r.reply.chatRoomId);
      AcceptLinked(db, r.db, requestId, actor.value, now, r.reply.transactionId, r.reply.chatRoomId);
      AcceptReservations(db, r.db, requestId, actor.value, now, r.reply.transactionId, r.reply.chatRoomId);
      AcceptRequests(db, r.db, requestId, actor.value, now, r.reply.transactionId, r.reply.chatRoomId);
    }
  }

  lemma AcceptKeyed(db: Db, db': Db, requestId: Id, donor: UserId, now: nat, txId: Id, room: string)
    requires requestId in db.requests && db.requests[requestId].postId in db.posts
    requires Keyed(db) && AcceptEffect(db, db', requestId, donor, now, txId, room)
    ensures Keyed(db')
  {
  }

  lemma AcceptLinked(db: Db, db': Db, requestId: Id, donor: UserId, now: nat, txId: Id, room: string)
    requires requestId in db.requests && db.requests[requestId].postId in db.posts
    requires Linked(db) && donor in db.users && AcceptEffect(db, db', requestId, donor, now, txId, room)
    ensures Linked(db')
  {
  }

  lemma AcceptReservations(db: Db, db': Db, requestId: Id, donor: UserId, now: nat, txId: Id, room: string)
    requires requestId in db.requests && db.requests[requestId].postId in db.posts
    requires Reservations(db) && AcceptEffect(db, db', requestId, donor, now, txId, room)
    requires var p := db.requests[requestId].postId;
      db.posts[p].donorId == donor && !PostHasTransaction(db, p)
    ensures Reservations(db')
  {
    AcceptOneTransactionPerPost(db, db', requestId, donor, now, txId, room);
    AcceptTransactionsSound(db, db', requestId, donor, now, txId, room);
    AcceptClosedReserved(db, db', requestId, donor, now, txId, room);
  }

  lemma AcceptOneTransactionPerPost(db: Db, db': Db, requestId: Id, donor: UserId, now: nat, txId: Id, room: string)
    requires requestId in db.requests && db.requests[requestId].postId in db.posts
    requires Reservations(db) && AcceptEffect(db, db', requestId, donor, now, txId, room)
    requires !PostHasTransaction(db, db.requests[requestId].postId)
    ensures forall a, b ::
      (a in db'.transactions && b in db'.transactions && db'.transactions[a].postId == db'.transactions[b].postId)
      ==> a == b
  {
    var p := db.requests[requestId].postId;
    forall id | id in db.transactions ensures db.transactions[id].postId != p {
    }
  }

  lemma AcceptTransactionsSound(db: Db, db': Db, requestId: Id, donor: UserId, now: nat, txId: Id, room: string)
    requires requestId in db.requests && db.requests[requestId].postId in db.posts
    requires Reservations(db) && AcceptEffect(db, db', requestId, donor, now, txId, room)
    requires db.posts[db.requests[requestId].postId].donorId == donor
    ensures forall id :: id in db'.transactions ==>
      var t := db'.transactions[id];
      && t.postId in db'.posts && Closed(db'.posts[t.postId].status)
      && db'.posts[t.postId].donorId == t.donorId
      && t.createdAt >= 0 && t.chatRoomId == ChatRoomId(t.createdAt, t.postId)
      && (t.status == TxStatus.Completed ==> t.completedAt.Some?)
  {
  }

  lemma AcceptClosedReserved(db: Db, db': Db, requestId: Id, donor: UserId, now: nat, txId: Id, room: string)
    requires requestId in db.requests && db.requests[requestId].postId in db.posts
    requires Reservations(db) && AcceptEffect(db, db', requestId, donor, now, txId, room)
    ensures forall q :: q in db'.posts && Closed(db'.posts[q].status) ==> PostHasTransaction(db', q)
  {
    var p := db.requests[requestId].postId;
    forall q | q in db'.posts && Closed(db'.posts[q].status) ensures PostHasTransaction(db', q) {
      if q == p {
        assert db'.transactions[txId].postId == p;
      } else {
        var t :| t in db.transactions && db.transactions[t].postId == q;
        assert db'.transactions[t].postId == q;
      }
    }
  }

  lemma AcceptRequests(db: Db, db': Db, requestId: Id, donor: UserId, now: nat, txId: Id, room: string)
    requires requestId in db.requests && db.requests[requestId].postId in db.posts
    requires RequestsSound(db) && AcceptEffect(db, db', requestId, donor, now, txId, room)
    requires !PostHasTransaction(db, db.requests[requestId].postId)
    ensures RequestsSound(db')
  {
    AcceptOneRequestPerReceiver(db, db', requestId, donor, now, txId, room);
    AcceptRequestsDecided(db, db', requestId, donor, now, txId, room);
  }

  lemma AcceptOneRequestPerReceiver(db: Db, db': Db, requestId: Id, donor: UserId, now: nat, txId: Id, room: string)
    requires requestId in db.requests && db.requests[requestId].postId in db.posts
    requires RequestsSound(db) && AcceptEffect(db, db', requestId, donor, now, txId, room)
    ensures forall a, b ::
      (&& a in db'.requests && b in db'.requests
       && db'.requests[a].postId == db'.requests[b].postId
       && db'.requests[a].receiverId == db'.requests[b].receiverId)
      ==> a == b
  {
    forall id | id in db.requests
      ensures db'.requests[id].postId == db.requests[id].postId
      ensures db'.requests[id].receiverId == db.requests[id].receiverId
    {
    }
  }

  lemma AcceptRequestsDecided(db: Db, db': Db, requestId: Id, donor: UserId, now: nat, txId: Id, room: string)
    requires requestId in db.requests && db.requests[requestId].postId in db.posts
    requires RequestsSound(db) && AcceptEffect(db, db', requestId, donor, now, txId, room)
    requires !PostHasTransaction(db, db.requests[requestId].postId)
    ensures forall id :: id in db'.requests ==>
      var q := db'.requests[id];
      && q.postId in db'.posts && q.receiverId != db'.posts[q.postId].donorId
      && (q.status == Pending ==> !Closed(db'.posts[q.postId].status))
      && (q.status != Pending ==> PostHasTransaction(db', q.postId))
      && (q.status == RequestStatus.Accepted ==> ReservedFor(db', q.postId, q.receiverId))
  {
    var p := db.requests[requestId].postId;
    var receiver := db.requests[requestId].receiverId;
    assert ReservedFor(db', p, receiver) by {
      assert db'.transactions[txId].postId == p && db'.transactions[txId].receiverId == receiver;
    }
    assert PostHasTransaction(db', p) by {
      assert db'.transactions[txId].postId == p;
    }
    forall id | id in db'.requests
      ensures var q := db'.requests[id];
        && q.postId in db'.posts && q.receiverId != db'.posts[q.postId].donorId
        && (q.status == Pending ==> !Closed(db'.posts[q.postId].status))
        && (q.status != Pending ==> PostHasTransaction(db', q.postId))
        && (q.status == RequestStatus.Accepted ==> ReservedFor(db', q.postId, q.receiverId))
    {
      var q := db.requests[id];
      if q.postId == p {
        // every request on the post was still PENDING: it had no transaction
        assert q.status == Pending;
      } else {
        assert db'.requests[id] == q;
        if q.status != Pending {
          var t :| t in db.transactions && db.transactions[t].postId == q.postId;
          assert db'.transactions[t].postId == q.postId;
        }
        if q.status == RequestStatus.Accepted {
          var t :| t in db.transactions && db.transactions[t].postId == q.postId && db.transactions[t].receiverId == q.receiverId;
          assert db'.transactions[t].postId == q.postId && db'.transactions[t].receiverId == q.receiverId;
        }
      }
    }
  }

  /** A transaction moved along the handoff, with its post kept closed:
      everything but the two statuses and the completion time stays. */
  ghost predicate Retouched(db: Db, txId: Id, tx: Transaction, post: Post)
    requires txId in db.transactions && db.transactions[txId].postId in db.posts
  {
    var t := db.transactions[txId];
    && tx.(status := t.status, completedAt := t.completedAt) == t
    && (tx.status == TxStatus.Completed ==> tx.completedAt.Some?)
    && post.(status := db.posts[t.postId].status) == db.posts[t.postId]
    && Closed(post.status)
  }

  lemma RetouchKeepsInv(db: Db, txId: Id, tx: Transaction, post: Post)
    requires Inv(db) && txId in db.transactions && Retouched(db, txId, tx, post)
    ensures Inv(db.(transactions := db.transactions[txId := tx],
                    posts := db.posts[db.transactions[txId].postId := post]))
  {
    RetouchKeyed(db, txId, tx, post);
    RetouchLinked(db, txId, tx, post);
    RetouchReservations(db, txId, tx, post);
    RetouchRequests(db, txId, tx, post);
  }

  lemma RetouchKeyed(db: Db, txId: Id, tx: Transaction, post: Post)
    requires txId in db.transactions && db.transactions[txId].postId in db.posts
    requires Keyed(db) && Retouched(db, txId, tx, post)
    ensures Keyed(db.(transactions := db.transactions[txId := tx],
                      posts := db.posts[db.transactions[txId].postId := post]))
  {
  }

  lemma RetouchLinked(db: Db, txId: Id, tx: Transaction, post: Post)
    requires txId in db.transactions && db.transactions[txId].postId in db.posts
    requires Linked(db) && Retouched(db, txId, tx, post)
    ensures Linked(db.(transactions := db.transactions[txId := tx],
                       posts := db.posts[db.transactions[txId].postId := post]))
  {
  }

  lemma RetouchReservations(db: Db, txId: Id, tx: Transaction, post: Post)
    requires txId in db.transactions && db.transactions[txId].postId in db.posts
    requires Reservations(db) && Retouched(db, txId, tx, post)
    ensures Reservations(db.(transactions := db.transactions[txId := tx],
                             posts := db.posts[db.transactions[txId].postId := post]))
  {
    RetouchTransactions(db, txId, tx, post);
    RetouchClosedReserved(db, txId, tx, post);
  }

  lemma RetouchTransactions(db: Db, txId: Id, tx: Transaction, post: Post)
    requires txId in db.transactions && db.transactions[txId].postId in db.posts
    requires Reservations(db) && Retouched(db, txId, tx, post)
    ensures var db' := db.(transactions := db.transactions[txId := tx],
                           posts := db.posts[db.transactions[txId].postId := post]);
      && (forall a, b ::
            (a in db'.transactions && b in db'.transactions && db'.transactions[a].postId == db'.transactions[b].postId)
            ==> a == b)
      && (forall id :: id in db'.transactions ==>
            var t := db'.transactions[id];
            && t.postId in db'.posts && Closed(db'.posts[t.postId].status)
            && db'.posts[t.postId].donorId == t.donorId
            && t.createdAt >= 0 && t.chatRoomId == ChatRoomId(t.createdAt, t.postId)
            && (t.status == TxStatus.Completed ==> t.completedAt.Some?))
  {
  }

  lemma RetouchClosedReserved(db: Db, txId: Id, tx: Transaction, post: Post)
    requires txId in db.transactions && db.transactions[txId].postId in db.posts
    requires Reservations(db) && Retouched(db, txId, tx, post)
    ensures var db' := db.(transactions := db.transactions[txId := tx],
                           posts := db.posts[db.transactions[txId].postId := post]);
      forall p :: p in db'.posts && Closed(db'.posts[p].status) ==> PostHasTransaction(db', p)
  {
    var db' := db.(transactions := db.transactions[txId := tx],
                   posts := db.posts[db.transactions[txId].postId := post]);
    forall p | p in db'.posts && Closed(db'.posts[p].status) ensures PostHasTransaction(db', p) {
      if p == tx.postId {
        assert db'.transactions[txId].postId == p;
      } else {
        var t :| t in db.transactions && db.transactions[t].postId == p;
        assert db'.transactions[t].postId == p;
      }
    }
  }

  lemma RetouchRequests(db: Db, txId: Id, tx: Transaction, post: Post)
    requires txId in db.transactions && db.transactions[txId].postId in db.posts
    requires RequestsSound(db) && Reservations(db) && Retouched(db, txId, tx, post)
    ensures RequestsSound(db.(transactions := db.transactions[txId := tx],
                              posts := db.posts[db.transactions[txId].postId := post]))
  {
    var db' := db.(transactions := db.transactions[txId := tx],
                   posts := db.posts[db.transactions[txId].postId := post]);
    SameParties(db, db');
    forall id | id in db'.requests
      ensures var q := db'.requests[id];
        && q.postId in db'.posts && q.receiverId != db'.posts[q.postId].donorId
        && (q.status == Pending ==> !Closed(db'.posts[q.postId].status))
    {
    }
  }

  /** Transactions that keep their posts and receivers answer the two
      questions the request rules ask the same way. */
  lemma SameParties(db: Db, db': Db)
    requires db'.transactions.Keys == db.transactions.Keys
    requires forall id :: id in db.transactions ==>
      db'.transactions[id].postId == db.transactions[id].postId
      && db'.transactions[id].receiverId == db.transactions[id].receiverId
    ensures forall p :: PostHasTransaction(db', p) == PostHasTransaction(db, p)
    ensures forall p, u :: ReservedFor(db', p, u) == ReservedFor(db, p, u)
  {
    forall p, u ensures ReservedFor(db', p, u) == ReservedFor(db, p, u) {
      if ReservedFor(db, p, u) {
        var t :| t in db.transactions && db.transactions[t].postId == p && db.transactions[t].receiverId == u;
        assert db'.transactions[t].postId == p && db'.transactions[t].receiverId == u;
      }
    }
    forall p ensures PostHasTransaction(db', p) == PostHasTransaction(db, p) {
      if PostHasTransaction(db, p) {
        var t :| t in db.transactions && db.transactions[t].postId == p;
        assert db'.transactions[t].postId == p;
      }
    }
  }

  /** The outcome of a pickup, as table updates. */
  ghost predicate PickedUpAs(db: Db, txId: Id, now: nat, delivered: bool, r: Step<Reply>)
  {
    && (r.reply.success ==>
          && txId in db.transactions
          && var tx := db.transactions[txId].(status := WaitingApproval);
             var db1 := db.(transactions := db.transactions[txId := tx]);
             var notice := PickupNotice(db1, tx);
             r.db == if notice.Some?
                     then Notifications.CreateNotificationStep(db1, tx.donorId, Info, notice.value, Some(PickupLink), now, delivered)
                     else db1)
    && (!r.reply.success ==> r.db == db)
  }

  lemma PickupShape(db: Db, actor: Option<UserId>, txId: Id, now: nat, delivered: bool)
    ensures PickedUpAs(db, txId, now, delivered, MarkAsPickedUpStep(db, actor, txId, now, delivered))
  {
  }

  lemma PickupOutcomeKeepsInv(db: Db, txId: Id, now: nat, delivered: bool, r: Step<Reply>)
    requires Inv(db) && PickedUpAs(db, txId, now, delivered, r)
    ensures Inv(r.db)
  {
    if r.reply.success {
      var t := db.transactions[txId];
      var tx := t.(status := WaitingApproval);
      var db1 := db.(transactions := db.transactions[txId := tx]);
      RetouchKeepsInv(db, txId, tx, db.posts[t.postId]);
      assert db.posts[t.postId := db.posts[t.postId]] == db.posts;
      var notice := PickupNotice(db1, tx);
      if notice.Some? {
        NotifyKeepsInv(db1, tx.donorId, Info, notice.value, Some(PickupLink), now, delivered);
      }
    }
  }

  /** `markAsPickedUp` as written keeps the invariant: the stage moves, the
      reservation stays. */
  lemma PickupKeepsInv(db: Db, actor: Option<UserId>, txId: Id, now: nat, delivered: bool)
    requires Inv(db)
    ensures Inv(MarkAsPickedUpStep(db, actor, txId, now, delivered).db)
  {
    PickupShape(db, actor, txId, now, delivered);
    PickupOutcomeKeepsInv(db, txId, now, delivered, MarkAsPickedUpStep(db, actor, txId, now, delivered));
  }

  /** The outcome of an approval, as table updates. */
  ghost predicate ApprovedAs(db: Db, txId: Id, now: nat, delivered: bool, r: Step<Reply>)
  {
    && (r.reply.success ==>
          && txId in db.transactions && db.transactions[txId].postId in db.posts
          && var t := db.transactions[txId];
             var tx := t.(status := TxStatus.Completed, completedAt := Some(now));
             var post := db.posts[t.postId].(status := PostStatus.Completed);
             var db1 := db.(transactions := db.transactions[txId := tx], posts := db.posts[t.postId := post]);
             r.db == Notifications.CreateNotificationStep(db1, t.receiverId, Success, ApprovalNotice(post.title),
                                                          Some(MessagesLink + t.chatRoomId), now, delivered))
    && (!r.reply.success ==> r.db == db)
  }

  lemma ApproveShape(db: Db, actor: Option<UserId>, txId: Id, now: nat, delivered: bool)
    ensures ApprovedAs(db, txId, now, delivered, ApproveTransactionStep(db, actor, txId, now, delivered))
  {
  }

  lemma ApproveOutcomeKeepsInv(db: Db, txId: Id, now: nat, delivered: bool, r: Step<Reply>)
    requires Inv(db) && ApprovedAs(db, txId, now, delivered, r)
    ensures Inv(r.db)
  {
    if r.reply.success {
      var t := db.transactions[txId];
      var tx := t.(status := TxStatus.Completed, completedAt := Some(now));
      var post := db.posts[t.postId].(status := PostStatus.Completed);
      var db1 := db.(transactions := db.transactions[txId := tx], posts := db.posts[t.postId := post]);
      RetouchKeepsInv(db, txId, tx, post);
      NotifyKeepsInv(db1, t.receiverId, Success, ApprovalNotice(post.title), Some(MessagesLink + t.chatRoomId),
                     now, delivered);
    }
  }

  /** `approveTransaction` keeps the invariant. */
  lemma ApproveKeepsInv(db: Db, actor: Option<UserId>, txId: Id, now: nat, delivered: bool)
    requires Inv(db)
    ensures Inv(ApproveTransactionStep(db, actor, txId, now, delivered).db)
  {
    ApproveShape(db, actor, txId, now, delivered);
    ApproveOutcomeKeepsInv(db, txId, now, delivered, ApproveTransactionStep(db, actor, txId, now, delivered));
  }

  /** A chat message on an existing transaction, under the next id. */
  lemma AppendMessageKeepsInv(db: Db, m: ChatMessage, db': Db)
    requires Inv(db) && m.id == db.nextId && m.transactionId in db.transactions
    requires db' == db.(messages := db.messages + [m], nextId := db.nextId + 1)
    ensures Inv(db')
  {
    AppendMessageKeyed(db, m);
    AppendMessageLinked(db, m);
    assert forall p :: PostHasTransaction(db', p) == PostHasTransaction(db, p);
    assert forall p, u :: ReservedFor(db', p, u) == ReservedFor(db, p, u);
  }

  lemma AppendMessageKeyed(db: Db, m: ChatMessage)
    requires Keyed(db) && m.id == db.nextId
    ensures Keyed(db.(messages := db.messages + [m], nextId := db.nextId + 1))
  {
    var db' := db.(messages := db.messages + [m], nextId := db.nextId + 1);
    forall k | 0 <= k < |db'.messages| ensures db'.messages[k].id < db'.nextId {
      if k < |db.messages| {
        assert db'.messages[k] == db.messages[k];
      }
    }
  }

  lemma AppendMessageLinked(db: Db, m: ChatMessage)
    requires Linked(db) && m.transactionId in db.transactions
    ensures Linked(db.(messages := db.messages + [m], nextId := db.nextId + 1))
  {
    var db' := db.(messages := db.messages + [m], nextId := db.nextId + 1);
    forall k | 0 <= k < |db'.messages| ensures db'.messages[k].transactionId in db'.transactions {
      if k < |db.messages| {
        assert db'.messages[k] == db.messages[k];
      }
    }
  }

  /** The outcome of sending a message, as table updates. */
  ghost predicate SentAs(db: Db, actor: Option<UserId>, room: string, message: string, now: nat, delivered: bool,
                         r: Step<Reply>)
  {
    && (r.reply.success ==>
          && actor.Some? && actor.value in db.users
          && Chat.FindRoom(db.transactions, room, db.nextId).Some?
          && var txId := Chat.FindRoom(db.transactions, room, db.nextId).value;
             var db1 := db.(messages := db.messages + [ChatMessage(db.nextId, txId, actor.value, Text.Trim(message), now)],
                            nextId := db.nextId + 1);
             var other := Chat.OtherParty(db.transactions[txId], actor.value);
             r.db == if other != ""
                     then Notifications.CreateNotificationStep(db1, other, Info, "New message from " + db.users[actor.value].name,
                                                               Some(MessagesLink + room), now, delivered)
                     else db1)
    && (!r.reply.success ==> r.db == db)
  }

  lemma SendMessageShape(db: Db, actor: Option<UserId>, room: string, message: string, now: nat, delivered: bool)
    ensures SentAs(db, actor, room, message, now, delivered, Chat.SendMessageStep(db, actor, room, message, now, delivered))
  {
  }

  lemma SentOutcomeKeepsInv(db: Db, actor: Option<UserId>, room: string, message: string, now: nat, delivered: bool,
                            r: Step<Reply>)
    requires Inv(db) && SentAs(db, actor, room, message, now, delivered, r)
    ensures Inv(r.db)
  {
    if r.reply.success {
      var txId := Chat.FindRoom(db.transactions, room, db.nextId).value;
      var m := ChatMessage(db.nextId, txId, actor.value, Text.Trim(message), now);
      var db1 := db.(messages := db.messages + [m], nextId := db.nextId + 1);
      AppendMessageKeepsInv(db, m, db1);
      var other := Chat.OtherParty(db.transactions[txId], actor.value);
      if other != "" {
        NotifyKeepsInv(db1, other, Info, "New message from " + db.users[actor.value].name,
                       Some(MessagesLink + room), now, delivered);
      }
    }
  }

  /** `sendMessage` keeps the invariant. */
  lemma SendMessageKeepsInv(db: Db, actor: Option<UserId>, room: string, message: string, now: nat, delivered: bool)
    requires Inv(db)
    ensures Inv(Chat.SendMessageStep(db, actor, room, message, now, delivered).db)
  {
    SendMessageShape(db, actor, room, message, now, delivered);
    SentOutcomeKeepsInv(db, actor, room, message, now, delivered, Chat.SendMessageStep(db, actor, room, message, now, delivered));
  }
}

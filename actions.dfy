/** The server actions of src/app/actions/ as one state machine over the
    store: what holds after any sequence of calls, whoever makes them. */
module Actions {
  import opened Wrappers
  import opened Schema
  import opened Users
  import opened Transactions
  import opened Lifecycle
  import Posts
  import ManagePosts
  import Requests
  import ManageRequests
  import Notifications
  import Chat
  import Text

  /** One call of a server action, with the session user, the identity
      provider's profile, the clock and the outcome of the best-effort
      notification insert as inputs. */
  datatype Action =
    | Publish(actor: Option<UserId>, profile: Option<Profile>, form: Form, env: Env)
    | Edit(actor: Option<UserId>, postId: Id, form: Form, env: Env)
    | Delete(actor: Option<UserId>, postId: Id)
    | Toggle(actor: Option<UserId>, postId: Id)
    | Ask(actor: Option<UserId>, profile: Option<Profile>, request: Requests.RequestForm, now: nat, delivered: bool)
    | Withdraw(actor: Option<UserId>, requestId: Id)
    | Accept(actor: Option<UserId>, requestId: Id, now: nat)
    | PickUp(actor: Option<UserId>, txId: Id, now: nat, delivered: bool)
    | Approve(actor: Option<UserId>, txId: Id, now: nat, delivered: bool)
    | Send(actor: Option<UserId>, room: string, message: string, now: nat, delivered: bool)
    | Notify(userId: UserId, kind: NoticeType, message: string, link: Option<string>, now: nat, delivered: bool)
    | Read(actor: Option<UserId>, noticeId: Id)
    | ReadAll(actor: Option<UserId>)

  /** The store after one call. `deletePost` is taken in its intended form
      (`ManagePosts.DeletePostStep`): as written it never succeeds. */
  function Apply(db: Db, a: Action): Db
  {
    match a
    case Publish(actor, profile, form, env) => Posts.CreatePostStep(db, actor, profile, form, env).db
    case Edit(actor, postId, form, env) => ManagePosts.UpdatePostStep(db, actor, postId, form, env).db
    case Delete(actor, postId) => ManagePosts.DeletePostStep(db, actor, postId).db
    case Toggle(actor, postId) => ManagePosts.TogglePostStatusStep(db, actor, postId).db
    case Ask(actor, profile, request, now, delivered) =>
      Requests.CreateRequestStep(db, actor, profile, request, now, delivered).db
    case Withdraw(actor, requestId) => ManageRequests.CancelRequestStep(db, actor, requestId).db
    case Accept(actor, requestId, now) => AcceptRequestStep(db, actor, requestId, now).db
    case PickUp(actor, txId, now, delivered) => MarkAsPickedUpStep(db, actor, txId, now, delivered).db
    case Approve(actor, txId, now, delivered) => ApproveTransactionStep(db, actor, txId, now, delivered).db
    case Send(actor, room, message, now, delivered) => Chat.SendMessageStep(db, actor, room, message, now, delivered).db
    case Notify(userId, kind, message, link, now, delivered) =>
      Notifications.CreateNotificationStep(db, userId, kind, message, link, now, delivered)
    case Read(actor, noticeId) => Notifications.MarkAsReadStep(db, actor, noticeId)
    case ReadAll(actor) => Notifications.MarkAllAsReadStep(db, actor)
  }

  /** The store after a sequence of calls, first to last. */
  function Run(db: Db, actions: seq<Action>): Db
    decreases |actions|
  {
    if actions == [] then db else Run(Apply(db, actions[0]), actions[1..])
  }

  /** The calls that publish, edit, delete or toggle a post. */
  predicate OnPost(a: Action)
  {
    a.Publish? || a.Edit? || a.Delete? || a.Toggle?
  }

  /** The calls that send or withdraw a request. */
  predicate OnRequest(a: Action)
  {
    a.Ask? || a.Withdraw?
  }

  /** The calls of the handoff: accept, pickup and approval. */
  predicate OnHandoff(a: Action)
  {
    a.Accept? || a.PickUp? || a.Approve?
  }

  /** Every action keeps the invariant. */
  lemma ApplyKeepsInv(db: Db, a: Action)
    requires Inv(db)
    ensures Inv(Apply(db, a))
  {
    if OnPost(a) {
      PostCallKeepsInv(db, a);
    } else if OnRequest(a) {
      RequestCallKeepsInv(db, a);
    } else if OnHandoff(a) {
      HandoffCallKeepsInv(db, a);
    } else {
      LogCallKeepsInv(db, a);
    }
  }

  lemma PostCallKeepsInv(db: Db, a: Action)
    requires Inv(db) && OnPost(a)
    ensures Inv(Apply(db, a))
  {
    if a.Publish? {
      CreatePostKeepsInv(db, a.actor, a.profile, a.form, a.env);
    } else if a.Edit? {
      UpdatePostKeepsInv(db, a.actor, a.postId, a.form, a.env);
    } else if a.Delete? {
      DeletePostKeepsInv(db, a.actor, a.postId);
    } else {
      TogglePostStatusKeepsInv(db, a.actor, a.postId);
    }
  }

  lemma RequestCallKeepsInv(db: Db, a: Action)
    requires Inv(db) && OnRequest(a)
    ensures Inv(Apply(db, a))
  {
    if a.Ask? {
      CreateRequestKeepsInv(db, a.actor, a.profile, a.request, a.now, a.delivered);
    } else {
      CancelRequestKeepsInv(db, a.actor, a.requestId);
    }
  }

  lemma HandoffCallKeepsInv(db: Db, a: Action)
    requires Inv(db) && OnHandoff(a)
    ensures Inv(Apply(db, a))
  {
    if a.Accept? {
      AcceptKeepsInv(db, a.actor, a.requestId, a.now);
    } else if a.PickUp? {
      PickupKeepsInv(db, a.actor, a.txId, a.now, a.delivered);
    } else {
      ApproveKeepsInv(db, a.actor, a.txId, a.now, a.delivered);
    }
  }

  lemma LogCallKeepsInv(db: Db, a: Action)
    requires Inv(db) && !OnPost(a) && !OnRequest(a) && !OnHandoff(a)
    ensures Inv(Apply(db, a))
  {
    if a.Send? {
      SendMessageKeepsInv(db, a.actor, a.room, a.message, a.now, a.delivered);
    } else if a.Notify? {
      NotifyKeepsInv(db, a.userId, a.kind, a.message, a.link, a.now, a.delivered);
    } else if a.Read? {
      MarkAsReadKeepsInv(db, a.actor, a.noticeId);
    } else {
      MarkAllAsReadKeepsInv(db, a.actor);
    }
  }

  lemma {:induction false} RunKeepsInv(db: Db, actions: seq<Action>)
    requires Inv(db)
    ensures Inv(Run(db, actions))
    decreases |actions|
  {
    if actions != [] {
      ApplyKeepsInv(db, actions[0]);
      RunKeepsInv(Apply(db, actions[0]), actions[1..]);
    }
  }

  /** Whatever happens from an empty store: one transaction per post, made
      by its donor; a post is RESERVED or COMPLETED exactly when it has one;
      one request per receiver and post, never by the donor; every reference
      resolves. */
  lemma Reachable(actions: seq<Action>)
    ensures Inv(Run(EmptyDb, actions))
  {
    EmptyInv();
    RunKeepsInv(EmptyDb, actions);
  }

  /** A transaction keeps its post, its parties, its chat room and its
      creation time; only its status and completion time move. */
  predicate Persists(t: Transaction, t': Transaction)
  {
    t'.(status := t.status, completedAt := t.completedAt) == t
  }

  /** What no action undoes: transactions, reserved and completed posts,
      sent messages, notices (a read one stays read), users and handed-out
      ids. */
  ghost predicate KeepsHistory(db: Db, db': Db)
  {
    && (forall id :: id in db.transactions ==>
          id in db'.transactions && Persists(db.transactions[id], db'.transactions[id]))
    && (forall p :: p in db.posts && Closed(db.posts[p].status) ==>
          && p in db'.posts && Closed(db'.posts[p].status)
          && (db.posts[p].status == PostStatus.Completed ==> db'.posts[p].status == PostStatus.Completed)
          && db'.posts[p].donorId == db.posts[p].donorId)
    && db.messages <= db'.messages
    && |db.notifications| <= |db'.notifications|
    && (forall k :: 0 <= k < |db.notifications| ==>
          && db'.notifications[k].(read := db.notifications[k].read) == db.notifications[k]
          && (db.notifications[k].read ==> db'.notifications[k].read))
    && db.users.Keys <= db'.users.Keys
    && db.nextId <= db'.nextId
  }

  lemma HistoryTransitive(db: Db, db': Db, db'': Db)
    requires KeepsHistory(db, db') && KeepsHistory(db', db'')
    ensures KeepsHistory(db, db'')
  {
  }

  lemma SameHistory(db: Db)
    ensures KeepsHistory(db, db)
  {
  }

  /** A notice appended, or none, undoes nothing. */
  lemma NotifyKeepsHistory(db: Db, userId: UserId, kind: NoticeType, message: string, link: Option<string>,
                           now: nat, delivered: bool)
    ensures KeepsHistory(db, Notifications.CreateNotificationStep(db, userId, kind, message, link, now, delivered))
  {
    var db' := Notifications.CreateNotificationStep(db, userId, kind, message, link, now, delivered);
    forall k | 0 <= k < |db.notifications| ensures db'.notifications[k] == db.notifications[k] {
      if delivered {
        assert db'.notifications[..|db.notifications|] == db.notifications;
      }
    }
  }

  lemma ReadKeepsHistory(db: Db, db': Db)
    requires db' == db.(notifications := db'.notifications) && |db'.notifications| == |db.notifications|
    requires forall k :: 0 <= k < |db.notifications| ==>
      db'.notifications[k] == db.notifications[k] || db'.notifications[k] == db.notifications[k].(read := true)
    ensures KeepsHistory(db, db')
  {
  }

  lemma PublishKeepsHistory(db: Db, actor: Option<UserId>, profile: Option<Profile>, form: Form, env: Env)
    ensures KeepsHistory(db, Posts.CreatePostStep(db, actor, profile, form, env).db)
  {
    if actor.Some? && profile.Some? && Posts.FormValid(form, env) && CanUpsert(db.users, actor.value, profile.value) {
      InsertPostShape(db, actor.value, profile.value, form, env);
      InsertedKeepsHistory(db, actor.value, profile.value, Posts.InsertPost(db, actor.value, profile.value, form, env));
    }
  }

  lemma InsertedKeepsHistory(db: Db, donor: UserId, profile: Profile, r: Step<Reply>)
    requires CanUpsert(db.users, donor, profile)
    requires var db1 := db.(users := EnsureUser(db.users, donor, profile, Donor));
      && (r.reply.success ==> db.nextId !in db.posts)
      && (r.reply.success ==>
            && db.nextId in r.db.posts
            && r.db == db1.(posts := db1.posts[db.nextId := r.db.posts[db.nextId]], nextId := db.nextId + 1)
            && r.db.posts[db.nextId].id == db.nextId && r.db.posts[db.nextId].status == Active
            && r.db.posts[db.nextId].donorId == donor)
      && (!r.reply.success ==> r.db == db1)
    ensures KeepsHistory(db, r.db)
  {
    var users := EnsureUser(db.users, donor, profile, Donor);
    if r.reply.success {
      AddPostKeepsHistory(db, users, r.db.posts[db.nextId], r.db);
    } else {
      AddUsersKeepsHistory(db, users, r.db);
    }
  }

  lemma AddUsersKeepsHistory(db: Db, users: map<UserId, User>, db': Db)
    requires db.users.Keys <= users.Keys && db' == db.(users := users)
    ensures KeepsHistory(db, db')
  {
  }

  lemma AddPostKeepsHistory(db: Db, users: map<UserId, User>, post: Post, db': Db)
    requires db.users.Keys <= users.Keys && db.nextId !in db.posts
    requires db' == db.(users := users, posts := db.posts[db.nextId := post], nextId := db.nextId + 1)
    ensures KeepsHistory(db, db')
  {
  }

  lemma EditKeepsHistory(db: Db, actor: Option<UserId>, postId: Id, form: Form, env: Env)
    ensures KeepsHistory(db, ManagePosts.UpdatePostStep(db, actor, postId, form, env).db)
  {
  }

  lemma DeleteKeepsHistory(db: Db, actor: Option<UserId>, postId: Id)
    requires Inv(db)
    ensures KeepsHistory(db, ManagePosts.DeletePostStep(db, actor, postId).db)
  {
    var r := ManagePosts.DeletePostStep(db, actor, postId);
    if r.reply.success {
      RemovedKeepsHistory(db, postId);
      assert r.db == db.(requests := ManagePosts.DeleteRequestsOf(db.requests, postId), posts := db.posts - {postId});
    } else {
      SameHistory(db);
    }
  }

  /** Only a post without a transaction can go, and such a post is open. */
  lemma RemovedKeepsHistory(db: Db, postId: Id)
    requires Reservations(db) && !PostHasTransaction(db, postId)
    ensures KeepsHistory(db, db.(requests := ManagePosts.DeleteRequestsOf(db.requests, postId), posts := db.posts - {postId}))
  {
    assert postId in db.posts ==> !Closed(db.posts[postId].status);
  }

  lemma ToggleKeepsHistory(db: Db, actor: Option<UserId>, postId: Id)
    ensures KeepsHistory(db, ManagePosts.TogglePostStatusStep(db, actor, postId).db)
  {
  }

  lemma AskKeepsHistory(db: Db, actor: Option<UserId>, profile: Option<Profile>, form: Requests.RequestForm,
                        now: nat, delivered: bool)
    ensures KeepsHistory(db, Requests.CreateRequestStep(db, actor, profile, form, now, delivered).db)
  {
    if (&& actor.Some? && form.postId.Some? && Filled(form.message) && profile.Some?
        && CanUpsert(db.users, actor.value, profile.value)) {
      var db1 := Requests.WithReceiver(db, actor.value, profile.value);
      AddUsersKeepsHistory(db, db1.users, db1);
      var user, postId, message := actor.value, form.postId.value, form.message.value;
      PlaceRequestShape(db1, user, postId, message, now, delivered);
      PlacedKeepsHistory(db1, user, postId, message, now, delivered,
                         Requests.PlaceRequest(db1, user, postId, message, now, delivered));
      HistoryTransitive(db, db1, Requests.PlaceRequest(db1, user, postId, message, now, delivered).db);
    }
  }

  lemma PlacedKeepsHistory(db: Db, user: UserId, postId: Id, message: string, now: nat, delivered: bool,
                           r: Step<Reply>)
    requires user in db.users && PlacedAs(db, user, postId, message, now, delivered, r)
    ensures KeepsHistory(db, r.db)
  {
    if r.reply.success {
      var db2 := db.(requests := db.requests[db.nextId := Request(db.nextId, postId, user, message, Pending, now)],
                     nextId := db.nextId + 1);
      NotifyKeepsHistory(db2, db.posts[postId].donorId, Info, Requests.RequestNotice(db.users[user].name),
                         Some(Requests.RequestsLink), now, delivered);
      HistoryTransitive(db, db2, r.db);
    } else {
      SameHistory(db);
    }
  }

  lemma WithdrawKeepsHistory(db: Db, actor: Option<UserId>, requestId: Id)
    ensures KeepsHistory(db, ManageRequests.CancelRequestStep(db, actor, requestId).db)
  {
  }

  lemma AcceptKeepsHistory(db: Db, actor: Option<UserId>, requestId: Id, now: nat)
    ensures KeepsHistory(db, AcceptRequestStep(db, actor, requestId, now).db)
  {
    var r := AcceptRequestStep(db, actor, requestId, now);
    if r.reply.Matched? {
      AcceptEffectKeepsHistory(db, r.db, requestId, actor.value, now, r.reply.transactionId, r.reply.chatRoomId);
    } else {
      SameHistory(db);
    }
  }

  lemma AcceptEffectKeepsHistory(db: Db, db': Db, requestId: Id, donor: UserId, now: nat, txId: Id, room: string)
    requires requestId in db.requests && db.requests[requestId].postId in db.posts
    requires db.posts[db.requests[requestId].postId].status == Active
    requires AcceptEffect(db, db', requestId, donor, now, txId, room)
    ensures KeepsHistory(db, db')
  {
  }

  lemma PickUpKeepsHistory(db: Db, actor: Option<UserId>, txId: Id, now: nat, delivered: bool)
    ensures KeepsHistory(db, MarkAsPickedUpStep(db, actor, txId, now, delivered).db)
  {
    PickupShape(db, actor, txId, now, delivered);
    PickedUpKeepsHistory(db, txId, now, delivered, MarkAsPickedUpStep(db, actor, txId, now, delivered));
  }

  lemma PickedUpKeepsHistory(db: Db, txId: Id, now: nat, delivered: bool, r: Step<Reply>)
    requires PickedUpAs(db, txId, now, delivered, r)
    ensures KeepsHistory(db, r.db)
  {
    if r.reply.success {
      var tx := db.transactions[txId].(status := WaitingApproval);
      var db1 := db.(transactions := db.transactions[txId := tx]);
      assert KeepsHistory(db, db1);
      var notice := PickupNotice(db1, tx);
      if notice.Some? {
        NotifyKeepsHistory(db1, tx.donorId, Info, notice.value, Some(PickupLink), now, delivered);
        HistoryTransitive(db, db1, r.db);
      }
    } else {
      SameHistory(db);
    }
  }

  lemma ApproveKeepsHistory(db: Db, actor: Option<UserId>, txId: Id, now: nat, delivered: bool)
    ensures KeepsHistory(db, ApproveTransactionStep(db, actor, txId, now, delivered).db)
  {
    ApproveShape(db, actor, txId, now, delivered);
    ApprovedKeepsHistory(db, txId, now, delivered, ApproveTransactionStep(db, actor, txId, now, delivered));
  }

  lemma ApprovedKeepsHistory(db: Db, txId: Id, now: nat, delivered: bool, r: Step<Reply>)
    requires ApprovedAs(db, txId, now, delivered, r)
    ensures KeepsHistory(db, r.db)
  {
    if r.reply.success {
      var t := db.transactions[txId];
      var tx := t.(status := TxStatus.Completed, completedAt := Some(now));
      var post := db.posts[t.postId].(status := PostStatus.Completed);
      var db1 := db.(transactions := db.transactions[txId := tx], posts := db.posts[t.postId := post]);
      assert KeepsHistory(db, db1);
      NotifyKeepsHistory(db1, t.receiverId, Success, ApprovalNotice(post.title), Some(MessagesLink + t.chatRoomId),
                         now, delivered);
      HistoryTransitive(db, db1, r.db);
    } else {
      SameHistory(db);
    }
  }

  lemma SendKeepsHistory(db: Db, actor: Option<UserId>, room: string, message: string, now: nat, delivered: bool)
    ensures KeepsHistory(db, Chat.SendMessageStep(db, actor, room, message, now, delivered).db)
  {
    SendMessageShape(db, actor, room, message, now, delivered);
    SentKeepsHistory(db, actor, room, message, now, delivered, Chat.SendMessageStep(db, actor, room, message, now, delivered));
  }

  lemma SentKeepsHistory(db: Db, actor: Option<UserId>, room: string, message: string, now: nat, delivered: bool,
                         r: Step<Reply>)
    requires SentAs(db, actor, room, message, now, delivered, r)
    ensures KeepsHistory(db, r.db)
  {
    if r.reply.success {
      var txId := Chat.FindRoom(db.transactions, room, db.nextId).value;
      var db1 := db.(messages := db.messages + [ChatMessage(db.nextId, txId, actor.value, Text.Trim(message), now)],
                     nextId := db.nextId + 1);
      assert KeepsHistory(db, db1);
      var other := Chat.OtherParty(db.transactions[txId], actor.value);
      if other != "" {
        NotifyKeepsHistory(db1, other, Info, "New message from " + db.users[actor.value].name,
                           Some(MessagesLink + room), now, delivered);
        HistoryTransitive(db, db1, r.db);
      }
    } else {
      SameHistory(db);
    }
  }

  lemma ApplyKeepsHistory(db: Db, a: Action)
    requires Inv(db)
    ensures KeepsHistory(db, Apply(db, a))
  {
    if OnPost(a) {
      PostCallKeepsHistory(db, a);
    } else if OnRequest(a) {
      RequestCallKeepsHistory(db, a);
    } else if OnHandoff(a) {
      HandoffCallKeepsHistory(db, a);
    } else {
      LogCallKeepsHistory(db, a);
    }
  }

  lemma PostCallKeepsHistory(db: Db, a: Action)
    requires Inv(db) && OnPost(a)
    ensures KeepsHistory(db, Apply(db, a))
  {
    if a.Publish? {
      PublishKeepsHistory(db, a.actor, a.profile, a.form, a.env);
    } else if a.Edit? {
      EditKeepsHistory(db, a.actor, a.postId, a.form, a.env);
    } else if a.Delete? {
      DeleteKeepsHistory(db, a.actor, a.postId);
    } else {
      ToggleKeepsHistory(db, a.actor, a.postId);
    }
  }

  lemma RequestCallKeepsHistory(db: Db, a: Action)
    requires Inv(db) && OnRequest(a)
    ensures KeepsHistory(db, Apply(db, a))
  {
    if a.Ask? {
      AskKeepsHistory(db, a.actor, a.profile, a.request, a.now, a.delivered);
    } else {
      WithdrawKeepsHistory(db, a.actor, a.requestId);
    }
  }

  lemma HandoffCallKeepsHistory(db: Db, a: Action)
    requires Inv(db) && OnHandoff(a)
    ensures KeepsHistory(db, Apply(db, a))
  {
    if a.Accept? {
      AcceptKeepsHistory(db, a.actor, a.requestId, a.now);
    } else if a.PickUp? {
      PickUpKeepsHistory(db, a.actor, a.txId, a.now, a.delivered);
    } else {
      ApproveKeepsHistory(db, a.actor, a.txId, a.now, a.delivered);
    }
  }

  lemma LogCallKeepsHistory(db: Db, a: Action)
    requires Inv(db) && !OnPost(a) && !OnRequest(a) && !OnHandoff(a)
    ensures KeepsHistory(db, Apply(db, a))
  {
    if a.Send? {
      SendKeepsHistory(db, a.actor, a.room, a.message, a.now, a.delivered);
    } else if a.Notify? {
      NotifyKeepsHistory(db, a.userId, a.kind, a.message, a.link, a.now, a.delivered);
    } else if a.Read? {
      ReadKeepsHistory(db, Notifications.MarkAsReadStep(db, a.actor, a.noticeId));
    } else {
      ReadKeepsHistory(db, Notifications.MarkAllAsReadStep(db, a.actor));
    }
  }

  /** Over any run from a store that satisfies the invariant: no transaction
      is lost or re-assigned, a RESERVED post never returns to ACTIVE or
      INACTIVE and a COMPLETED one stays COMPLETED, messages are only
      appended, and a notice, once read, stays read. */
  lemma {:induction false} RunKeepsHistory(db: Db, actions: seq<Action>)
    requires Inv(db)
    ensures KeepsHistory(db, Run(db, actions))
    decreases |actions|
  {
    if actions == [] {
      SameHistory(db);
    } else {
      var db1 := Apply(db, actions[0]);
      ApplyKeepsHistory(db, actions[0]);
      ApplyKeepsInv(db, actions[0]);
      RunKeepsHistory(db1, actions[1..]);
      HistoryTransitive(db, db1, Run(db1, actions[1..]));
    }
  }

  /** The handoff from a request on an ACTIVE post: the donor accepts, the
      receiver picks up, the donor approves. Each call succeeds, and at the
      end the post and the transaction are COMPLETED, the completion time is
      the approval's, and the request is ACCEPTED. */
  lemma HandoffRoundTrip(db: Db, requestId: Id, t1: nat, t2: nat, t3: nat, d2: bool, d3: bool)
    requires Inv(db) && requestId in db.requests
    requires db.posts[db.requests[requestId].postId].status == Active
    ensures var q := db.requests[requestId];
      var donor := db.posts[q.postId].donorId;
      var accepted := AcceptRequestStep(db, Some(donor), requestId, t1);
      var txId := db.nextId;
      var picked := MarkAsPickedUpStep(accepted.db, Some(q.receiverId), txId, t2, d2);
      var approved := ApproveTransactionStep(picked.db, Some(donor), txId, t3, d3);
      && accepted.reply == Matched(txId, ChatRoomId(t1, q.postId))
      && picked.reply.success && approved.reply.success
      && approved.db.posts[q.postId].status == PostStatus.Completed
      && approved.db.transactions[txId].status == TxStatus.Completed
      && approved.db.transactions[txId].completedAt == Some(t3)
      && approved.db.transactions[txId].postId == q.postId
      && approved.db.transactions[txId].donorId == donor
      && approved.db.transactions[txId].receiverId == q.receiverId
      && approved.db.requests[requestId].status == RequestStatus.Accepted
  {
    var q := db.requests[requestId];
    var donor := db.posts[q.postId].donorId;
    AcceptSucceeds(db, donor, requestId, t1);
  }

  /** A valid form from a signed-in donor who can be got or created always
      opens a post under the next id, with no request on it yet. */
  lemma PublishOpens(db: Db, donor: UserId, dp: Profile, form: Form, env: Env)
    requires Inv(db) && Posts.FormValid(form, env) && Posts.FoodTypeField(form).Some?
    requires CanUpsert(db.users, donor, dp)
    ensures var published := Posts.CreatePostStep(db, Some(donor), Some(dp), form, env);
      && published.reply.success
      && published.db.nextId == db.nextId + 1
      && db.nextId in published.db.posts
      && published.db.posts[db.nextId].status == Active && published.db.posts[db.nextId].donorId == donor
      && !Requests.HasRequested(published.db.requests, db.nextId, donor)
      && (forall u :: !Requests.HasRequested(published.db.requests, db.nextId, u))
      && Inv(published.db)
  {
    var published := Posts.CreatePostStep(db, Some(donor), Some(dp), form, env);
    CreatePostKeepsInv(db, Some(donor), Some(dp), form, env);
    forall u ensures !Requests.HasRequested(published.db.requests, db.nextId, u) {
      forall id | id in published.db.requests ensures published.db.requests[id].postId != db.nextId {
        assert published.db.requests[id] == db.requests[id];
      }
    }
  }

  /** A request on an open post of somebody else, the receiver's first on
      it, is recorded as PENDING under the next id. */
  lemma AskOpens(db: Db, receiver: UserId, rp: Profile, postId: Id, message: string, now: nat, delivered: bool)
    requires Inv(db) && postId in db.posts && db.posts[postId].status == Active
    requires CanUpsert(db.users, receiver, rp)
    requires db.posts[postId].donorId != receiver && message != ""
    requires !Requests.HasRequested(db.requests, postId, receiver)
    ensures var asked := Requests.CreateRequestStep(db, Some(receiver), Some(rp),
                                                    Requests.RequestForm(Some(postId), Some(message)), now, delivered);
      && asked.reply.success
      && asked.db.posts == db.posts
      && db.nextId in asked.db.requests
      && asked.db.requests[db.nextId] == Request(db.nextId, postId, receiver, message, Pending, now)
      && Inv(asked.db)
  {
    var form := Requests.RequestForm(Some(postId), Some(message));
    Requests.CreateRequestOutcome(db, receiver, rp, form, now, delivered);
    CreateRequestKeepsInv(db, Some(receiver), Some(rp), form, now, delivered);
  }

  /** The whole lifecycle, from `createPost` through `createRequest`,
      `acceptRequest` and `markAsPickedUp` to `approveTransaction`: every call
      succeeds, and the post, the transaction and the request end COMPLETED,
      COMPLETED (with the approval time) and ACCEPTED. */
  lemma FullRoundTrip(db: Db, donor: UserId, dp: Profile, form: Form, env: Env,
                      receiver: UserId, rp: Profile, message: string,
                      t1: nat, t2: nat, t3: nat, t4: nat, d1: bool, d3: bool, d4: bool)
    requires Inv(db) && Posts.FormValid(form, env) && Posts.FoodTypeField(form).Some?
    requires donor != receiver && message != ""
    requires CanUpsert(db.users, donor, dp) && CanUpsert(db.users, receiver, rp)
    ensures var postId := db.nextId;
      var published := Posts.CreatePostStep(db, Some(donor), Some(dp), form, env);
      var requestId := published.db.nextId;
      var asked := Requests.CreateRequestStep(published.db, Some(receiver), Some(rp),
                                              Requests.RequestForm(Some(postId), Some(message)), t1, d1);
      var txId := asked.db.nextId;
      var accepted := AcceptRequestStep(asked.db, Some(donor), requestId, t2);
      var picked := MarkAsPickedUpStep(accepted.db, Some(receiver), txId, t3, d3);
      var approved := ApproveTransactionStep(picked.db, Some(donor), txId, t4, d4);
      && published.reply.success && asked.reply.success && accepted.reply.Matched?
      && picked.reply.success && approved.reply.success
      && approved.db.posts[postId].status == PostStatus.Completed
      && approved.db.transactions[txId].status == TxStatus.Completed
      && approved.db.transactions[txId].completedAt == Some(t4)
      && approved.db.transactions[txId].postId == postId
      && approved.db.transactions[txId].donorId == donor && approved.db.transactions[txId].receiverId == receiver
      && approved.db.requests[requestId].status == RequestStatus.Accepted
  {
    var postId := db.nextId;
    PublishOpens(db, donor, dp, form, env);
    var published := Posts.CreatePostStep(db, Some(donor), Some(dp), form, env);
    assert CanUpsert(published.db.users, receiver, rp);
    AskOpens(published.db, receiver, rp, postId, message, t1, d1);
    var asked := Requests.CreateRequestStep(published.db, Some(receiver), Some(rp),
                                            Requests.RequestForm(Some(postId), Some(message)), t1, d1);
    HandoffRoundTrip(asked.db, published.db.nextId, t2, t3, t4, d3, d4);
  }

  /** Every PENDING request after a call was already there, unchanged, or
      was made on a post that was ACTIVE before the call. */
  ghost predicate PendingFromActive(db: Db, db': Db)
  {
    forall id :: id in db'.requests && db'.requests[id].status == Pending ==>
      || (id in db.requests && db.requests[id] == db'.requests[id])
      || (db'.requests[id].postId in db.posts && db.posts[db'.requests[id].postId].status == Active)
  }

  lemma AskPendingFromActive(db: Db, actor: Option<UserId>, profile: Option<Profile>, form: Requests.RequestForm,
                             now: nat, delivered: bool)
    ensures PendingFromActive(db, Requests.CreateRequestStep(db, actor, profile, form, now, delivered).db)
  {
    if (&& actor.Some? && form.postId.Some? && Filled(form.message) && profile.Some?
        && CanUpsert(db.users, actor.value, profile.value)) {
      var db1 := Requests.WithReceiver(db, actor.value, profile.value);
      var user, postId, message := actor.value, form.postId.value, form.message.value;
      PlaceRequestShape(db1, user, postId, message, now, delivered);
      PlacedPendingFromActive(db, db1, user, postId, message, now, delivered,
                              Requests.PlaceRequest(db1, user, postId, message, now, delivered));
    }
  }

  lemma PlacedPendingFromActive(db: Db, db1: Db, user: UserId, postId: Id, message: string, now: nat,
                                delivered: bool, r: Step<Reply>)
    requires db1.requests == db.requests && db1.posts == db.posts
    requires user in db1.users && PlacedAs(db1, user, postId, message, now, delivered, r)
    ensures PendingFromActive(db, r.db)
  {
  }

  lemma AcceptPendingFromActive(db: Db, actor: Option<UserId>, requestId: Id, now: nat)
    ensures PendingFromActive(db, AcceptRequestStep(db, actor, requestId, now).db)
  {
  }

  /** A call that only keeps or removes requests adds no PENDING one. */
  lemma KeptPendingFromActive(db: Db, db': Db)
    requires forall id :: id in db'.requests ==> id in db.requests && db'.requests[id] == db.requests[id]
    ensures PendingFromActive(db, db')
  {
  }

  lemma ApplyPendingFromActive(db: Db, a: Action)
    ensures PendingFromActive(db, Apply(db, a))
  {
    if a.Ask? {
      AskPendingFromActive(db, a.actor, a.profile, a.request, a.now, a.delivered);
    } else if a.Accept? {
      AcceptPendingFromActive(db, a.actor, a.requestId, a.now);
    } else if OnPost(a) {
      PostCallKeepsRequests(db, a);
    } else {
      OtherCallKeepsRequests(db, a);
    }
  }

  lemma PostCallKeepsRequests(db: Db, a: Action)
    requires OnPost(a)
    ensures PendingFromActive(db, Apply(db, a))
  {
    if a.Publish? {
      var r := Posts.CreatePostStep(db, a.actor, a.profile, a.form, a.env);
      assert r.db.requests == db.requests;
      KeptPendingFromActive(db, r.db);
    } else if a.Edit? {
      KeptPendingFromActive(db, ManagePosts.UpdatePostStep(db, a.actor, a.postId, a.form, a.env).db);
    } else if a.Delete? {
      KeptPendingFromActive(db, ManagePosts.DeletePostStep(db, a.actor, a.postId).db);
    } else {
      KeptPendingFromActive(db, ManagePosts.TogglePostStatusStep(db, a.actor, a.postId).db);
    }
  }

  lemma OtherCallKeepsRequests(db: Db, a: Action)
    requires !OnPost(a) && !a.Ask? && !a.Accept?
    ensures PendingFromActive(db, Apply(db, a))
  {
    if a.Withdraw? || a.PickUp? || a.Approve? {
      CloseCallKeepsRequests(db, a);
    } else {
      LogCallKeepsRequests(db, a);
    }
  }

  lemma CloseCallKeepsRequests(db: Db, a: Action)
    requires a.Withdraw? || a.PickUp? || a.Approve?
    ensures PendingFromActive(db, Apply(db, a))
  {
    if a.Withdraw? {
      KeptPendingFromActive(db, ManageRequests.CancelRequestStep(db, a.actor, a.requestId).db);
    } else if a.PickUp? {
      KeptPendingFromActive(db, MarkAsPickedUpStep(db, a.actor, a.txId, a.now, a.delivered).db);
    } else {
      KeptPendingFromActive(db, ApproveTransactionStep(db, a.actor, a.txId, a.now, a.delivered).db);
    }
  }

  lemma LogCallKeepsRequests(db: Db, a: Action)
    requires a.Send? || a.Notify? || a.Read? || a.ReadAll?
    ensures PendingFromActive(db, Apply(db, a))
  {
    if a.Send? {
      KeptPendingFromActive(db, Chat.SendMessageStep(db, a.actor, a.room, a.message, a.now, a.delivered).db);
    } else if a.Notify? {
      KeptPendingFromActive(db, Notifications.CreateNotificationStep(db, a.userId, a.kind, a.message, a.link, a.now, a.delivered));
    } else if a.Read? {
      KeptPendingFromActive(db, Notifications.MarkAsReadStep(db, a.actor, a.noticeId));
    } else {
      KeptPendingFromActive(db, Notifications.MarkAllAsReadStep(db, a.actor));
    }
  }

  /** A post that is not ACTIVE gains no PENDING request, whatever the call. */
  lemma ClosedGainsNoPending(db: Db, a: Action, postId: Id)
    requires postId in db.posts && db.posts[postId].status != Active
    ensures forall id :: id in Apply(db, a).requests && Apply(db, a).requests[id].postId == postId
                         && Apply(db, a).requests[id].status == Pending ==>
      id in db.requests && db.requests[id].status == Pending
  {
    ApplyPendingFromActive(db, a);
  }
}

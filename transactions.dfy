/** The matching step and the handoff (src/app/actions/transaction.ts):
    `acceptRequest` turns one pending request into a reservation,
    `markAsPickedUp` and `approveTransaction` carry it to completion. */
module Transactions {
  import opened Wrappers
  import opened Schema
  import opened Text
  import opened Stores
  import opened Notifications

  const Unauthorized := "Unauthorized"
  const RequestNotFound := "Request not found"
  const UnauthorizedAction := "Unauthorized action."
  const NoLongerAvailable := "This food post is no longer available"
  const AcceptFailed := "Failed to accept request. Please try again."
  const TransactionNotFound := "Transaction not found"
  const OnlyReceiver := "Only the receiver can mark as picked up"
  const PickupFailed := "Failed to update status"
  const PickedUp := "Marked as picked up. Waiting for donor approval."
  const OnlyDonor := "Only the donor can approve completion"
  const ApproveFailed := "Failed to approve transaction"
  const Approved := "Transaction approved and completed!"
  const PickupLink := "/dashboard/donor/my-posts"
  const MessagesLink := "/dashboard/messages/"

  /** What `acceptRequest` answers: the new transaction's id and chat room,
      or `{ success: false, message }`. */
  datatype AcceptReply = Matched(transactionId: Id, chatRoomId: string) | Refused(message: string)

  /** `chat-${Date.now()}-${postId}` */
  function ChatRoomId(now: nat, postId: Id): string
  {
    "chat-" + Decimal(now) + "-" + Decimal(postId)
  }

  /** Two chat room ids are equal only when both the time and the post are:
      the numerals contain no '-', so the string splits back uniquely. */
  lemma ChatRoomIdInjective(t: nat, p: Id, t': nat, p': Id)
    requires ChatRoomId(t, p) == ChatRoomId(t', p')
    ensures t == t' && p == p'
  {
    var a, b, a', b' := Decimal(t), Decimal(p), Decimal(t'), Decimal(p');
    assert forall k :: 0 <= k < |a| ==> a[k] != '-' by {
      forall k | 0 <= k < |a| ensures a[k] != '-' { assert IsDigit(a[k]); }
    }
    assert forall k :: 0 <= k < |a'| ==> a'[k] != '-' by {
      forall k | 0 <= k < |a'| ensures a'[k] != '-' { assert IsDigit(a'[k]); }
    }
    assert ChatRoomId(t, p)[5..] == a + ['-'] + b;
    assert ChatRoomId(t', p')[5..] == a' + ['-'] + b';
    SplitAtFirst(a, b, a', b', '-');
    DecimalInjective(t, t');
    DecimalInjective(p, p');
  }

  predicate PostHasTransaction(db: Db, postId: Id)
  {
    exists t :: t in db.transactions && db.transactions[t].postId == postId
  }

  predicate ChatRoomTaken(db: Db, chatRoomId: string)
  {
    exists t :: t in db.transactions && db.transactions[t].chatRoomId == chatRoomId
  }

  /** The insert of the transaction row breaks a uniqueness constraint of
      the store (its id, its post, its chat room); the ORM throws and the
      whole `$transaction` is rolled back. */
  predicate InsertCollides(db: Db, postId: Id, chatRoomId: string)
  {
    db.nextId in db.transactions || PostHasTransaction(db, postId) || ChatRoomTaken(db, chatRoomId)
  }

  /** Step 2 of the accept: every other PENDING request on the post is
      REJECTED; nothing else in the table changes. */
  function RejectSiblings(requests: map<Id, Request>, postId: Id, requestId: Id): (r: map<Id, Request>)
    ensures r.Keys == requests.Keys
    ensures requestId in requests ==> r[requestId] == requests[requestId]
    ensures forall id :: id in requests && id != requestId && requests[id].postId == postId
                         && requests[id].status == Pending ==>
      r[id] == requests[id].(status := Rejected)
    ensures forall id :: id in requests && (requests[id].postId != postId || requests[id].status != Pending) ==>
      r[id] == requests[id]
  {
    map id | id in requests ::
      if id != requestId && requests[id].postId == postId && requests[id].status == Pending
      then requests[id].(status := Rejected) else requests[id]
  }

  /** Everything the guards of `acceptRequest` inspect, in the order the
      source checks them, reduced to the success condition. */
  predicate CanAccept(db: Db, donor: UserId, requestId: Id, now: nat)
  {
    && donor in db.users
    && requestId in db.requests
    && db.requests[requestId].postId in db.posts
    && db.posts[db.requests[requestId].postId].donorId == donor
    && db.posts[db.requests[requestId].postId].status == Active
    && !InsertCollides(db, db.requests[requestId].postId, ChatRoomId(now, db.requests[requestId].postId))
  }

  /** The state after a successful accept, stated write by write. */
  ghost predicate AcceptEffect(db: Db, db': Db, requestId: Id, donor: UserId, now: nat, txId: Id, room: string)
    requires requestId in db.requests && db.requests[requestId].postId in db.posts
  {
    var req := db.requests[requestId];
    var p := req.postId;
    // the target request becomes ACCEPTED
    && db'.requests.Keys == db.requests.Keys
    && db'.requests[requestId] == req.(status := Accepted)
    // PENDING siblings become REJECTED; every other request is untouched
    && (forall id :: id in db.requests && id != requestId ==>
          db'.requests[id] == if db.requests[id].postId == p && db.requests[id].status == Pending
                              then db.requests[id].(status := Rejected) else db.requests[id])
    // the post is RESERVED
    && db'.posts == db.posts[p := db.posts[p].(status := Reserved)]
    // exactly one transaction is added
    && txId == db.nextId && txId !in db.transactions
    && room == ChatRoomId(now, p)
    && db'.transactions == db.transactions[txId := Transaction(txId, p, donor, req.receiverId, InProgress, room, now, None)]
    && db'.nextId == db.nextId + 1
    // no other table is written
    && db'.users == db.users && db'.notifications == db.notifications && db'.messages == db.messages
  }

  /** `acceptRequest(requestId)` at time `now` (milliseconds), by `actor`. */
  function AcceptRequestStep(db: Db, actor: Option<UserId>, requestId: Id, now: nat): (r: Step<AcceptReply>)
    // a refusal writes nothing
    ensures r.reply.Refused? ==> r.db == db
    // the guards, in the order the source runs them
    ensures actor.None? ==> r.reply == Refused(Unauthorized)
    ensures actor.Some? && actor.value !in db.users ==> r.reply == Refused(AcceptFailed)
    ensures actor.Some? && actor.value in db.users && requestId !in db.requests ==>
      r.reply == Refused(RequestNotFound)
    ensures (&& actor.Some? && actor.value in db.users && requestId in db.requests
             && db.requests[requestId].postId in db.posts
             && db.posts[db.requests[requestId].postId].donorId != actor.value) ==>
      r.reply == Refused(UnauthorizedAction)
    ensures (&& actor.Some? && actor.value in db.users && requestId in db.requests
             && db.requests[requestId].postId in db.posts
             && db.posts[db.requests[requestId].postId].donorId == actor.value
             && db.posts[db.requests[requestId].postId].status != Active) ==>
      r.reply == Refused(NoLongerAvailable)
    // success exactly when every guard passes and the insert is admissible
    ensures r.reply.Matched? <==> actor.Some? && CanAccept(db, actor.value, requestId, now)
    ensures r.reply.Matched? ==>
      AcceptEffect(db, r.db, requestId, actor.value, now, r.reply.transactionId, r.reply.chatRoomId)
  {
    if actor.None? then Step(db, Refused(Unauthorized))
    else if actor.value !in db.users then Step(db, Refused(AcceptFailed))
    else if requestId !in db.requests then Step(db, Refused(RequestNotFound))
    else
      var req := db.requests[requestId];
      // `request.post.donorId` on a missing post throws: the generic failure
      if req.postId !in db.posts then Step(db, Refused(AcceptFailed))
      else if db.posts[req.postId].donorId != actor.value then Step(db, Refused(UnauthorizedAction))
      else if db.posts[req.postId].status != Active then Step(db, Refused(NoLongerAvailable))
      else
        var room := ChatRoomId(now, req.postId);
        if InsertCollides(db, req.postId, room) then Step(db, Refused(AcceptFailed))
        else
          var txId := db.nextId;
          var requests := RejectSiblings(db.requests[requestId := req.(status := Accepted)], req.postId, requestId);
          var posts := db.posts[req.postId := db.posts[req.postId].(status := Reserved)];
          var tx := Transaction(txId, req.postId, actor.value, req.receiverId, InProgress, room, now, None);
          Step(db.(requests := requests, posts := posts,
                   transactions := db.transactions[txId := tx], nextId := txId + 1),
               Matched(txId, room))
  }

  /** The imperative accept: the guard reads, then the four writes of the
      `$transaction` staged on local copies and committed together. */
  method AcceptRequest(store: Store, actor: Option<UserId>, requestId: Id, now: nat) returns (reply: AcceptReply)
    modifies store
    ensures Step(store.State(), reply) == AcceptRequestStep(old(store.State()), actor, requestId, now)
  {
    if actor.None? {
      return Refused(Unauthorized);
    }
    var userId := actor.value;
    if userId !in store.users {
      return Refused(AcceptFailed);
    }
    if requestId !in store.requests {
      return Refused(RequestNotFound);
    }
    var request := store.requests[requestId];
    if request.postId !in store.posts {
      return Refused(AcceptFailed);
    }
    var post := store.posts[request.postId];
    if post.donorId != userId {
      return Refused(UnauthorizedAction);
    }
    if post.status != Active {
      return Refused(NoLongerAvailable);
    }
    // the `$transaction`: work on copies, commit only if every write succeeds
    var requests := store.requests;
    requests := requests[requestId := request.(status := Accepted)];
    requests := RejectSiblings(requests, request.postId, requestId);
    var posts := store.posts[request.postId := post.(status := Reserved)];
    var room := ChatRoomId(now, request.postId);
    if InsertCollides(store.State(), request.postId, room) {
      return Refused(AcceptFailed);
    }
    var txId := store.nextId;
    var transactions := store.transactions[txId := Transaction(txId, request.postId, userId, request.receiverId, InProgress, room, now, None)];
    store.requests, store.posts, store.transactions, store.nextId := requests, posts, transactions, txId + 1;
    return Matched(txId, room);
  }

  /** The donor's notice after a pickup, when both the receiver and the post
      can be read; otherwise building it throws inside the inner `try` and no
      notice is sent. */
  function PickupNotice(db: Db, tx: Transaction): Option<string>
  {
    if tx.receiverId in db.users && tx.postId in db.posts then
      var name := db.users[tx.receiverId].name;
      Some((if name != "" then name else "Receiver") + " has picked up \"" + db.posts[tx.postId].title
           + "\". Please approve completion.")
    else None
  }

  /** `markAsPickedUp(transactionId)`: only the receiver may call it, and it
      sets WAITING_APPROVAL whatever the current status. */
  function MarkAsPickedUpStep(db: Db, actor: Option<UserId>, txId: Id, now: nat, delivered: bool): (r: Step<Reply>)
    ensures !r.reply.success ==> r.db == db
    ensures actor.None? ==> r.reply == Reply(false, Unauthorized)
    ensures actor.Some? && txId !in db.transactions ==> r.reply == Reply(false, TransactionNotFound)
    ensures actor.Some? && txId in db.transactions && db.transactions[txId].receiverId != actor.value ==>
      r.reply == Reply(false, OnlyReceiver)
    ensures r.reply.success <==> actor.Some? && txId in db.transactions && db.transactions[txId].receiverId == actor.value
    ensures r.reply.success ==>
      && r.reply.message == PickedUp
      && r.db.transactions == db.transactions[txId := db.transactions[txId].(status := WaitingApproval)]
      && r.db.users == db.users && r.db.posts == db.posts && r.db.requests == db.requests
      && r.db.messages == db.messages
    // the donor's notice is appended exactly when it can be built and its
    // insert goes through
    ensures r.reply.success ==>
      var notice := PickupNotice(db, db.transactions[txId]);
      && r.db.notifications == db.notifications +
           (if delivered && notice.Some?
            then [Notification(db.nextId, db.transactions[txId].donorId, Info, notice.value, Some(PickupLink), false, now)]
            else [])
      && r.db.nextId == db.nextId + (if delivered && notice.Some? then 1 else 0)
  {
    if actor.None? then Step(db, Reply(false, Unauthorized))
    else if txId !in db.transactions then Step(db, Reply(false, TransactionNotFound))
    else
      var tx := db.transactions[txId];
      if tx.receiverId != actor.value then Step(db, Reply(false, OnlyReceiver))
      else
        var updated := tx.(status := WaitingApproval);
        var db1 := db.(transactions := db.transactions[txId := updated]);
        var notice := PickupNotice(db1, updated);
        var db2 := if notice.Some?
          then CreateNotificationStep(db1, updated.donorId, Info, notice.value, Some(PickupLink), now, delivered)
          else db1;
        Step(db2, Reply(true, PickedUp))
  }

  method MarkAsPickedUp(store: Store, actor: Option<UserId>, txId: Id, now: nat, delivered: bool) returns (reply: Reply)
    modifies store
    ensures Step(store.State(), reply) == MarkAsPickedUpStep(old(store.State()), actor, txId, now, delivered)
  {
    if actor.None? {
      return Reply(false, Unauthorized);
    }
    if txId !in store.transactions {
      return Reply(false, TransactionNotFound);
    }
    var tx := store.transactions[txId];
    if tx.receiverId != actor.value {
      return Reply(false, OnlyReceiver);
    }
    var updated := tx.(status := WaitingApproval);
    store.transactions := store.transactions[txId := updated];
    // notify the donor; a failure here is swallowed
    var notice := PickupNotice(store.State(), updated);
    if notice.Some? {
      CreateNotification(store, updated.donorId, Info, notice.value, Some(PickupLink), now, delivered);
    }
    return Reply(true, PickedUp);
  }

  /** Whether the donor's notice goes through never changes the answer or
      the transaction: a failed notification does not undo the pickup. */
  lemma PickupIgnoresDelivery(db: Db, actor: Option<UserId>, txId: Id, now: nat)
    ensures MarkAsPickedUpStep(db, actor, txId, now, true).reply == MarkAsPickedUpStep(db, actor, txId, now, false).reply
    ensures MarkAsPickedUpStep(db, actor, txId, now, true).db.transactions
         == MarkAsPickedUpStep(db, actor, txId, now, false).db.transactions
  {
  }

  /** The receiver's notice after approval. */
  function ApprovalNotice(title: string): string
  {
    "Your pickup for \"" + title + "\" has been approved by the donor!"
  }

  /** `approveTransaction(transactionId)`: only the donor may call it; it
      completes the transaction and the post together, whatever the
      transaction's status, then notifies the receiver. */
  function ApproveTransactionStep(db: Db, actor: Option<UserId>, txId: Id, now: nat, delivered: bool): (r: Step<Reply>)
    ensures !r.reply.success ==> r.db == db
    ensures actor.None? ==> r.reply == Reply(false, Unauthorized)
    ensures actor.Some? && txId !in db.transactions ==> r.reply == Reply(false, TransactionNotFound)
    ensures actor.Some? && txId in db.transactions && db.transactions[txId].donorId != actor.value ==>
      r.reply == Reply(false, OnlyDonor)
    ensures r.reply.success <==>
      actor.Some? && txId in db.transactions && db.transactions[txId].donorId == actor.value
      && db.transactions[txId].postId in db.posts
    ensures r.reply.success ==>
      var tx := db.transactions[txId];
      && r.reply.message == Approved
      && r.db.transactions == db.transactions[txId := tx.(status := TxStatus.Completed, completedAt := Some(now))]
      && r.db.posts == db.posts[tx.postId := db.posts[tx.postId].(status := PostStatus.Completed)]
      && r.db.users == db.users && r.db.requests == db.requests && r.db.messages == db.messages
      && r.db.notifications == db.notifications +
           (if delivered
            then [Notification(db.nextId, tx.receiverId, Success, ApprovalNotice(db.posts[tx.postId].title),
                               Some(MessagesLink + tx.chatRoomId), false, now)]
            else [])
      && r.db.nextId == db.nextId + (if delivered then 1 else 0)
  {
    if actor.None? then Step(db, Reply(false, Unauthorized))
    else if txId !in db.transactions then Step(db, Reply(false, TransactionNotFound))
    else
      var tx := db.transactions[txId];
      if tx.donorId != actor.value then Step(db, Reply(false, OnlyDonor))
      // the post update inside `$transaction` throws: both writes roll back
      else if tx.postId !in db.posts then Step(db, Reply(false, ApproveFailed))
      else
        var db1 := db.(
          transactions := db.transactions[txId := tx.(status := TxStatus.Completed, completedAt := Some(now))],
          posts := db.posts[tx.postId := db.posts[tx.postId].(status := PostStatus.Completed)]);
        var db2 := CreateNotificationStep(db1, tx.receiverId, Success, ApprovalNotice(db1.posts[tx.postId].title),
                                          Some(MessagesLink + tx.chatRoomId), now, delivered);
        Step(db2, Reply(true, Approved))
  }

  method ApproveTransaction(store: Store, actor: Option<UserId>, txId: Id, now: nat, delivered: bool) returns (reply: Reply)
    modifies store
    ensures Step(store.State(), reply) == ApproveTransactionStep(old(store.State()), actor, txId, now, delivered)
  {
    if actor.None? {
      return Reply(false, Unauthorized);
    }
    if txId !in store.transactions {
      return Reply(false, TransactionNotFound);
    }
    var tx := store.transactions[txId];
    if tx.donorId != actor.value {
      return Reply(false, OnlyDonor);
    }
    if tx.postId !in store.posts {
      return Reply(false, ApproveFailed);
    }
    // the `$transaction`: the two updates commit together
    var completed := tx.(status := TxStatus.Completed, completedAt := Some(now));
    var post := store.posts[tx.postId].(status := PostStatus.Completed);
    store.transactions, store.posts := store.transactions[txId := completed], store.posts[tx.postId := post];
    // read the title back and notify the receiver
    CreateNotification(store, tx.receiverId, Success, ApprovalNotice(post.title),
                       Some(MessagesLink + tx.chatRoomId), now, delivered);
    return Reply(true, Approved);
  }

  /** How far a handoff has come: IN_PROGRESS, WAITING_APPROVAL, COMPLETED. */
  function Rank(s: TxStatus): nat
  {
    match s
    case InProgress => 0
    case WaitingApproval => 1
    case Completed => 2
  }

  /** As written, `markAsPickedUp` takes a COMPLETED handoff back to
      WAITING_APPROVAL: the receiver of an approved transaction can reopen it. */
  lemma PickupReopensCompleted()
    ensures var tx := Transaction(0, 0, "donor", "receiver", TxStatus.Completed, "chat-0-0", 0, Some(1));
      var db := EmptyDb.(transactions := map[0 := tx], nextId := 1);
      var r := MarkAsPickedUpStep(db, Some("receiver"), 0, 2, false);
      && r.reply.success
      && r.db.transactions[0].status == WaitingApproval
      && Rank(r.db.transactions[0].status) < Rank(tx.status)
  {
  }

  /** Approval never moves a handoff back and touches no other transaction.
      It has no WAITING_APPROVAL gate: the donor may complete an IN_PROGRESS
      handoff directly. */
  lemma ApproveNeverMovesBack(db: Db, actor: Option<UserId>, txId: Id, now: nat, delivered: bool, id: Id)
    requires id in db.transactions
    ensures var r := ApproveTransactionStep(db, actor, txId, now, delivered);
      && id in r.db.transactions
      && Rank(r.db.transactions[id].status) >= Rank(db.transactions[id].status)
      && (r.reply.success && id == txId ==> r.db.transactions[id].status == TxStatus.Completed)
      && (id != txId ==> r.db.transactions[id] == db.transactions[id])
  {
  }

  /** As written, the donor can approve a handoff the receiver has not
      marked as picked up: IN_PROGRESS goes straight to COMPLETED. */
  lemma ApproveSkipsPickup()
    ensures var post := Post(0, "donor", "Rice", "Cooked rice", Veg, "2 kg", 1, "Main St", 0.0, 0.0,
                             false, "555", ["img"], Reserved, 0);
      var tx := Transaction(1, 0, "donor", "receiver", InProgress, "chat-0-0", 0, None);
      var db := EmptyDb.(posts := map[0 := post], transactions := map[1 := tx], nextId := 2);
      var r := ApproveTransactionStep(db, Some("donor"), 1, 5, false);
      && r.reply.success
      && r.db.transactions[1].status == TxStatus.Completed
      && r.db.posts[0].status == PostStatus.Completed
  {
  }
}

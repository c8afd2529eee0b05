/** A receiver's view of and control over their own requests
    (src/app/actions/manage-requests.ts). */
module ManageRequests {
  import opened Wrappers
  import opened Schema
  import opened Ordering
  import opened Stores
  import opened Users
  import opened Requests

  const RequestNotFound := "Request not found"
  const NotReceiver := "Unauthorized action"
  const CannotCancel := "Cannot cancel accepted requests. Please coordinate with the donor."
  const Cancelled := "Request cancelled successfully!"

  /** `cancelRequest(requestId)`: the receiver may withdraw a PENDING or a
      REJECTED request; an ACCEPTED one stays. */
  function CancelRequestStep(db: Db, actor: Option<UserId>, requestId: Id): (r: Step<Reply>)
    ensures !r.reply.success ==> r.db == db
    ensures actor.None? ==> r.reply == Reply(false, Unauthorized)
    ensures actor.Some? && requestId !in db.requests ==> r.reply == Reply(false, RequestNotFound)
    ensures (&& actor.Some? && requestId in db.requests
             && db.requests[requestId].receiverId != actor.value) ==>
      r.reply == Reply(false, NotReceiver)
    ensures (&& actor.Some? && requestId in db.requests && db.requests[requestId].receiverId == actor.value
             && db.requests[requestId].status == RequestStatus.Accepted) ==>
      r.reply == Reply(false, CannotCancel)
    ensures r.reply.success <==>
      && actor.Some? && requestId in db.requests && db.requests[requestId].receiverId == actor.value
      && db.requests[requestId].status != RequestStatus.Accepted
    ensures r.reply.success ==>
      r.reply.message == Cancelled && r.db == db.(requests := db.requests - {requestId})
  {
    if actor.None? then Step(db, Reply(false, Unauthorized))
    else if requestId !in db.requests then Step(db, Reply(false, RequestNotFound))
    else
      var request := db.requests[requestId];
      if request.receiverId != actor.value then Step(db, Reply(false, NotReceiver))
      else if request.status == RequestStatus.Accepted then Step(db, Reply(false, CannotCancel))
      else Step(db.(requests := db.requests - {requestId}), Reply(true, Cancelled))
  }

  method CancelRequest(store: Store, actor: Option<UserId>, requestId: Id) returns (reply: Reply)
    modifies store
    ensures Step(store.State(), reply) == CancelRequestStep(old(store.State()), actor, requestId)
  {
    if actor.None? {
      return Reply(false, Unauthorized);
    }
    if requestId !in store.requests {
      return Reply(false, RequestNotFound);
    }
    var request := store.requests[requestId];
    if request.receiverId != actor.value {
      return Reply(false, NotReceiver);
    }
    if request.status == RequestStatus.Accepted {
      return Reply(false, CannotCancel);
    }
    store.requests := store.requests - {requestId};
    return Reply(true, Cancelled);
  }

  /** Cancelling a request just sent takes the request table back to what it
      was before: `cancelRequest` undoes `createRequest`. */
  lemma CancelUndoesCreate(db: Db, user: UserId, profile: Profile, form: RequestForm, now: nat, delivered: bool)
    requires CreateRequestStep(db, Some(user), Some(profile), form, now, delivered).reply.success
    ensures var created := CreateRequestStep(db, Some(user), Some(profile), form, now, delivered).db;
      var cancelled := CancelRequestStep(created, Some(user), db.nextId);
      cancelled.reply.success && cancelled.db.requests == db.requests
  {
    var db1 := WithReceiver(db, user, profile);
    var placed := PlaceRequest(db1, user, form.postId.value, form.message.value, now, delivered);
    assert placed == CreateRequestStep(db, Some(user), Some(profile), form, now, delivered);
    var q := Request(db.nextId, form.postId.value, user, form.message.value, Pending, now);
    CancelFresh(db.requests, placed.db, user, q);
  }

  /** Cancelling the receiver's PENDING request just added under a fresh id
      restores the request table. */
  lemma CancelFresh(requests: map<Id, Request>, created: Db, user: UserId, q: Request)
    requires q.id !in requests && q.receiverId == user && q.status == Pending
    requires created.requests == requests[q.id := q]
    ensures CancelRequestStep(created, Some(user), q.id).reply.success
    ensures CancelRequestStep(created, Some(user), q.id).db.requests == requests
  {
    assert created.requests - {q.id} == requests;
  }

  /** `getMyRequests`: the signed-in user's requests and no others, newest
      first; an empty list for a caller who is not signed in. Rows are read
      through the id range handed out so far. */
  function GetMyRequests(db: Db, actor: Option<UserId>): (r: seq<Request>)
    ensures actor.None? ==> r == []
    ensures forall k :: 0 <= k < |r| ==> actor.Some? && r[k].receiverId == actor.value && r[k] in db.requests.Values
    ensures actor.Some? ==>
      forall id :: id in db.requests && id < db.nextId && db.requests[id].receiverId == actor.value ==>
        db.requests[id] in r
    ensures actor.Some? ==>
      multiset(r) == multiset(Filter(Rows(db.requests, db.nextId), (q: Request) => q.receiverId == actor.value))
    ensures SortedDesc(r, (q: Request) => q.createdAt)
  {
    match actor
    case None => []
    case Some(user) =>
      var all := Rows(db.requests, db.nextId);
      var mine := QueryDesc(all, (q: Request) => q.receiverId == user, (q: Request) => q.createdAt);
      forall id | id in db.requests && id < db.nextId && db.requests[id].receiverId == user
        ensures db.requests[id] in mine
      {
        var k :| 0 <= k < |all| && all[k] == db.requests[id];
      }
      mine
  }
}

/** A receiver asking for a food post (src/app/actions/request.ts). */
module Requests {
  import opened Wrappers
  import opened Schema
  import opened Stores
  import opened Users
  import opened Notifications

  const Unauthorized := "Unauthorized"
  const MissingFields := "Missing fields"
  const PostNotFound := "Food post not found"
  const OwnPost := "You cannot request your own food post!"
  const Unavailable := "This food is no longer available"
  const AlreadyRequested := "You have already requested this item."
  const SendFailed := "Failed to send request."
  const Sent := "Request sent successfully!"
  const RequestsLink := "/dashboard/donor/requests"

  /** The two form values; None stands for a missing or empty value, both of
      which the action treats as absent. */
  datatype RequestForm = RequestForm(postId: Option<Id>, message: Option<string>)

  /** Some request of `receiver` for the post exists, whatever its status. */
  predicate HasRequested(requests: map<Id, Request>, postId: Id, receiver: UserId)
  {
    exists id :: id in requests && requests[id].postId == postId && requests[id].receiverId == receiver
  }

  /** The donor's notice. The post lookup selects only the donor and the
      status, so the title interpolates as "undefined". */
  function RequestNotice(name: string): string
  {
    "New request for \"undefined\" from " + (if name != "" then name else "a user") + "!"
  }

  /** The tables once the receiver's user row has been got or created: this
      write persists even when a later check refuses the request. */
  function WithReceiver(db: Db, user: UserId, p: Profile): Db
    requires CanUpsert(db.users, user, p)
  {
    db.(users := EnsureUser(db.users, user, p, Receiver))
  }

  /** The checks and writes of `createRequest` that follow the user upsert,
      on the tables `db` as the upsert left them. */
  function PlaceRequest(db: Db, user: UserId, postId: Id, message: string, now: nat, delivered: bool): (r: Step<Reply>)
    requires user in db.users
    ensures !r.reply.success ==> r.db == db
    ensures r.reply.success <==>
      && postId in db.posts && db.posts[postId].donorId != user && db.posts[postId].status == Active
      && !HasRequested(db.requests, postId, user) && db.nextId !in db.requests
    ensures postId !in db.posts ==> r.reply == Reply(false, PostNotFound)
    ensures postId in db.posts && db.posts[postId].donorId == user ==> r.reply == Reply(false, OwnPost)
    ensures (&& postId in db.posts && db.posts[postId].donorId != user
             && db.posts[postId].status != Active) ==>
      r.reply == Reply(false, Unavailable)
    ensures (&& postId in db.posts && db.posts[postId].donorId != user && db.posts[postId].status == Active
             && HasRequested(db.requests, postId, user)) ==>
      r.reply == Reply(false, AlreadyRequested)
    // one PENDING request is added under a fresh id, and the donor is
    // notified when the notice gets through
    ensures r.reply.success ==>
      && r.reply.message == Sent
      && r.db.requests == db.requests[db.nextId := Request(db.nextId, postId, user, message, Pending, now)]
      && r.db.users == db.users && r.db.posts == db.posts
      && r.db.transactions == db.transactions && r.db.messages == db.messages
      && r.db.notifications == db.notifications +
           (if delivered
            then [Notification(db.nextId + 1, db.posts[postId].donorId, Info, RequestNotice(db.users[user].name),
                               Some(RequestsLink), false, now)]
            else [])
      && r.db.nextId == db.nextId + 1 + (if delivered then 1 else 0)
  {
    if postId !in db.posts then Step(db, Reply(false, PostNotFound))
    else
      var post := db.posts[postId];
      if post.donorId == user then Step(db, Reply(false, OwnPost))
      else if post.status != Active then Step(db, Reply(false, Unavailable))
      else if HasRequested(db.requests, postId, user) then Step(db, Reply(false, AlreadyRequested))
      else if db.nextId in db.requests then Step(db, Reply(false, SendFailed))
      else
        var request := Request(db.nextId, postId, user, message, Pending, now);
        var db' := db.(requests := db.requests[db.nextId := request], nextId := db.nextId + 1);
        Step(CreateNotificationStep(db', post.donorId, Info, RequestNotice(db.users[user].name),
                                    Some(RequestsLink), now, delivered),
             Reply(true, Sent))
  }

  /** `createRequest(form)` for signed-in user `actor` with identity-provider
      profile `profile`. */
  function CreateRequestStep(db: Db, actor: Option<UserId>, profile: Option<Profile>, form: RequestForm,
                             now: nat, delivered: bool): (r: Step<Reply>)
    ensures actor.None? ==> r == Step(db, Reply(false, Unauthorized))
    ensures actor.Some? && (form.postId.None? || !Filled(form.message)) ==>
      r == Step(db, Reply(false, MissingFields))
    ensures actor.Some? && form.postId.Some? && Filled(form.message) && profile.None? ==>
      r == Step(db, Reply(false, Unauthorized))
    // a receiver who cannot be created writes nothing
    ensures (&& actor.Some? && form.postId.Some? && Filled(form.message) && profile.Some?
             && !CanUpsert(db.users, actor.value, profile.value)) ==>
      r == Step(db, Reply(false, SendFailed))
    // past the checks above the user row is written, whatever follows
    ensures (&& actor.Some? && form.postId.Some? && Filled(form.message) && profile.Some?
             && CanUpsert(db.users, actor.value, profile.value)) ==>
      r == PlaceRequest(WithReceiver(db, actor.value, profile.value), actor.value, form.postId.value,
                        form.message.value, now, delivered)
  {
    if actor.None? then Step(db, Reply(false, Unauthorized))
    else if form.postId.None? || !Filled(form.message) then Step(db, Reply(false, MissingFields))
    else if profile.None? then Step(db, Reply(false, Unauthorized))
    else if !CanUpsert(db.users, actor.value, profile.value) then Step(db, Reply(false, SendFailed))
    else PlaceRequest(WithReceiver(db, actor.value, profile.value), actor.value, form.postId.value,
                      form.message.value, now, delivered)
  }

  /** A request succeeds exactly when the receiver can be got or created
      and the post exists, is ACTIVE, belongs to someone else and has no
      request of this receiver yet; nothing but the user row changes on a
      refusal. */
  lemma CreateRequestOutcome(db: Db, user: UserId, profile: Profile, form: RequestForm, now: nat, delivered: bool)
    requires form.postId.Some? && Filled(form.message)
    ensures var r := CreateRequestStep(db, Some(user), Some(profile), form, now, delivered);
      && (CanUpsert(db.users, user, profile) ==> r.db.users == EnsureUser(db.users, user, profile, Receiver))
      && (!r.reply.success ==> r.db.(users := db.users) == db)
      && (r.reply.success <==>
            && CanUpsert(db.users, user, profile)
            && form.postId.value in db.posts && db.posts[form.postId.value].donorId != user
            && db.posts[form.postId.value].status == Active
            && !HasRequested(db.requests, form.postId.value, user) && db.nextId !in db.requests)
  {
  }

  method CreateRequest(store: Store, actor: Option<UserId>, profile: Option<Profile>, form: RequestForm,
                       now: nat, delivered: bool) returns (reply: Reply)
    modifies store
    ensures Step(store.State(), reply) == CreateRequestStep(old(store.State()), actor, profile, form, now, delivered)
  {
    if actor.None? {
      return Reply(false, Unauthorized);
    }
    if form.postId.None? || !Filled(form.message) {
      return Reply(false, MissingFields);
    }
    if profile.None? {
      return Reply(false, Unauthorized);
    }
    var user := UpsertUser(store, actor.value, profile.value, Receiver);
    if user.None? {
      return Reply(false, SendFailed);
    }
    reply := PlaceRequestIn(store, actor.value, form.postId.value, form.message.value, now, delivered);
  }

  method PlaceRequestIn(store: Store, user: UserId, postId: Id, message: string, now: nat, delivered: bool)
    returns (reply: Reply)
    requires user in store.users
    modifies store
    ensures Step(store.State(), reply) == PlaceRequest(old(store.State()), user, postId, message, now, delivered)
  {
    if postId !in store.posts {
      return Reply(false, PostNotFound);
    }
    var post := store.posts[postId];
    if post.donorId == user {
      return Reply(false, OwnPost);
    }
    if post.status != Active {
      return Reply(false, Unavailable);
    }
    if HasRequested(store.requests, postId, user) {
      return Reply(false, AlreadyRequested);
    }
    if store.nextId in store.requests {
      return Reply(false, SendFailed);
    }
    var name := store.users[user].name;
    var id := store.FreshId();
    store.requests := store.requests[id := Request(id, postId, user, message, Pending, now)];
    CreateNotification(store, post.donorId, Info, RequestNotice(name), Some(RequestsLink), now, delivered);
    return Reply(true, Sent);
  }

  /** A second identical request is refused: the first one is on record. */
  lemma CreateRequestTwiceRefused(db: Db, actor: Option<UserId>, profile: Option<Profile>, form: RequestForm,
                                  now: nat, now': nat, delivered: bool, delivered': bool)
    requires CreateRequestStep(db, actor, profile, form, now, delivered).reply.success
    ensures CreateRequestStep(CreateRequestStep(db, actor, profile, form, now, delivered).db,
                              actor, profile, form, now', delivered').reply == Reply(false, AlreadyRequested)
  {
    var db' := CreateRequestStep(db, actor, profile, form, now, delivered).db;
    assert db'.requests[db.nextId].postId == form.postId.value;
    assert HasRequested(db'.requests, form.postId.value, actor.value);
    assert WithReceiver(db', actor.value, profile.value).requests == db'.requests;
  }
}

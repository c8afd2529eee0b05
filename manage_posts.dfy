/** The donor's own post transitions (src/app/actions/manage-posts.ts): edit,
    delete and the ACTIVE/INACTIVE switch, each guarded by ownership. */
module ManagePosts {
  import opened Wrappers
  import opened Schema
  import opened Stores
  import opened Transactions

  const NotOwner := "Unauthorized"
  const CannotEdit := "Cannot edit posts that are reserved or completed"
  const UpdateFailed := "Failed to update post"
  const Updated := "Post updated successfully!"
  const HasPickup := "Cannot delete posts with active pickups"
  const DeleteFailed := "Failed to delete post"
  const Deleted := "Post deleted successfully!"
  const CannotToggle := "Cannot toggle status of reserved or completed posts"
  const MarkedInactive := "Post marked as inactive!"
  const MarkedActive := "Post marked as active!"

  /** The signed-in user owns an existing post. */
  predicate Owns(db: Db, actor: Option<UserId>, postId: Id)
  {
    actor.Some? && postId in db.posts && db.posts[postId].donorId == actor.value
  }

  /** The seven fields an edit writes. */
  datatype PostEdit = PostEdit(
    title: string, description: string, foodType: FoodType, quantity: string, expiryTime: int,
    pickupAddress: string, showExactMap: bool)

  /** `new Date(v)`: a missing value is `new Date(null)`, the epoch. */
  function EditExpiry(form: Form, parseDate: string -> Option<int>): Option<int>
  {
    if "expiryTime" in form then parseDate(form["expiryTime"]) else Some(0)
  }

  /** The edit the form describes, or None when the update would be refused
      by the store: a required text field is null, the food type is not a
      member of the enum, or the expiry is an Invalid Date. */
  function EditOf(form: Form, parseDate: string -> Option<int>): (r: Option<PostEdit>)
    ensures r.Some? <==>
      && "title" in form && "description" in form && "quantity" in form && "address" in form
      && "foodType" in form && FoodTypeOf(form["foodType"]).Some?
      && EditExpiry(form, parseDate).Some?
    ensures r.Some? ==>
      && r.value.title == form["title"] && r.value.description == form["description"]
      && r.value.quantity == form["quantity"] && r.value.pickupAddress == form["address"]
      && Some(r.value.foodType) == FoodTypeOf(form["foodType"])
      && Some(r.value.expiryTime) == EditExpiry(form, parseDate)
      && (r.value.showExactMap <==> Field(form, "showExactLocation") == Some("on"))
  {
    if && "title" in form && "description" in form && "quantity" in form && "address" in form
       && "foodType" in form && FoodTypeOf(form["foodType"]).Some?
       && EditExpiry(form, parseDate).Some?
    then
      Some(PostEdit(form["title"], form["description"], FoodTypeOf(form["foodType"]).value,
                    form["quantity"], EditExpiry(form, parseDate).value, form["address"],
                    Field(form, "showExactLocation") == Some("on")))
    else None
  }

  function ApplyEdit(p: Post, e: PostEdit): Post
  {
    p.(title := e.title, description := e.description, foodType := e.foodType, quantity := e.quantity,
       expiryTime := e.expiryTime, pickupAddress := e.pickupAddress, showExactMap := e.showExactMap)
  }

  /** The post after an edit differs from the one before only in the seven
      edited fields: id, donor, coordinates, phone, images, status and
      creation time are the same. */
  predicate EditableOnly(p: Post, p': Post)
  {
    && p'.id == p.id && p'.donorId == p.donorId && p'.pickupLat == p.pickupLat
    && p'.pickupLng == p.pickupLng && p'.contactPhone == p.contactPhone && p'.images == p.images
    && p'.status == p.status && p'.createdAt == p.createdAt
  }

  /** `updatePost(postId, form)`. */
  function UpdatePostStep(db: Db, actor: Option<UserId>, postId: Id, form: Form, env: Env): (r: Step<Reply>)
    ensures !r.reply.success ==> r.db == db
    // a missing post and somebody else's post get the same answer
    ensures !Owns(db, actor, postId) ==> r.reply == Reply(false, NotOwner)
    // anything but ACTIVE, INACTIVE included, is refused
    ensures Owns(db, actor, postId) && db.posts[postId].status != Active ==> r.reply == Reply(false, CannotEdit)
    ensures (&& Owns(db, actor, postId) && db.posts[postId].status == Active
             && EditOf(form, env.parseDate).None?) ==>
      r.reply == Reply(false, UpdateFailed)
    ensures r.reply.success <==>
      Owns(db, actor, postId) && db.posts[postId].status == Active && EditOf(form, env.parseDate).Some?
    ensures r.reply.success ==>
      && r.reply.message == Updated
      && r.db == db.(posts := db.posts[postId := ApplyEdit(db.posts[postId], EditOf(form, env.parseDate).value)])
      && EditableOnly(db.posts[postId], r.db.posts[postId])
  {
    if !Owns(db, actor, postId) then Step(db, Reply(false, NotOwner))
    else if db.posts[postId].status != Active then Step(db, Reply(false, CannotEdit))
    else
      match EditOf(form, env.parseDate)
      case None => Step(db, Reply(false, UpdateFailed))
      case Some(e) => Step(db.(posts := db.posts[postId := ApplyEdit(db.posts[postId], e)]), Reply(true, Updated))
  }

  method UpdatePost(store: Store, actor: Option<UserId>, postId: Id, form: Form, env: Env) returns (reply: Reply)
    modifies store
    ensures Step(store.State(), reply) == UpdatePostStep(old(store.State()), actor, postId, form, env)
  {
    if actor.None? {
      return Reply(false, NotOwner);
    }
    if postId !in store.posts || store.posts[postId].donorId != actor.value {
      return Reply(false, NotOwner);
    }
    var post := store.posts[postId];
    if post.status != Active {
      return Reply(false, CannotEdit);
    }
    var edit := EditOf(form, env.parseDate);
    if edit.None? {
      return Reply(false, UpdateFailed);
    }
    store.posts := store.posts[postId := ApplyEdit(post, edit.value)];
    return Reply(true, Updated);
  }

  /** An edit of an ACTIVE post keeps it ACTIVE and touches no other post. */
  lemma UpdateKeepsStatus(db: Db, actor: Option<UserId>, postId: Id, form: Form, env: Env, other: Id)
    requires UpdatePostStep(db, actor, postId, form, env).reply.success
    ensures UpdatePostStep(db, actor, postId, form, env).db.posts[postId].status == Active
    ensures other != postId && other in db.posts ==>
      UpdatePostStep(db, actor, postId, form, env).db.posts[other] == db.posts[other]
  {
  }

  /** The request table after `request.deleteMany({ where: { postId } })`:
      every request of the post, whatever its status, is gone. */
  function DeleteRequestsOf(requests: map<Id, Request>, postId: Id): (r: map<Id, Request>)
    ensures forall id :: id in r <==> id in requests && requests[id].postId != postId
    ensures forall id :: id in r ==> r[id] == requests[id]
  {
    map id | id in requests && requests[id].postId != postId :: requests[id]
  }

  /** `deletePost(postId)` with the branch logic the code spells out: owner
      only, refused while a transaction exists for the post, otherwise every
      request of the post and then the post are deleted. */
  function DeletePostStep(db: Db, actor: Option<UserId>, postId: Id): (r: Step<Reply>)
    ensures !r.reply.success ==> r.db == db
    ensures !Owns(db, actor, postId) ==> r.reply == Reply(false, NotOwner)
    ensures Owns(db, actor, postId) && PostHasTransaction(db, postId) ==> r.reply == Reply(false, HasPickup)
    ensures r.reply.success <==> Owns(db, actor, postId) && !PostHasTransaction(db, postId)
    ensures r.reply.success ==>
      && r.reply.message == Deleted
      && r.db.posts == db.posts - {postId}
      && r.db.requests == DeleteRequestsOf(db.requests, postId)
      && r.db.users == db.users && r.db.transactions == db.transactions
      && r.db.notifications == db.notifications && r.db.messages == db.messages && r.db.nextId == db.nextId
  {
    if !Owns(db, actor, postId) then Step(db, Reply(false, NotOwner))
    else if PostHasTransaction(db, postId) then Step(db, Reply(false, HasPickup))
    else Step(db.(requests := DeleteRequestsOf(db.requests, postId), posts := db.posts - {postId}), Reply(true, Deleted))
  }

  method DeletePost(store: Store, actor: Option<UserId>, postId: Id) returns (reply: Reply)
    modifies store
    ensures Step(store.State(), reply) == DeletePostStep(old(store.State()), actor, postId)
  {
    if actor.None? {
      return Reply(false, NotOwner);
    }
    if postId !in store.posts || store.posts[postId].donorId != actor.value {
      return Reply(false, NotOwner);
    }
    if PostHasTransaction(store.State(), postId) {
      return Reply(false, HasPickup);
    }
    store.requests := DeleteRequestsOf(store.requests, postId);
    store.posts := store.posts - {postId};
    return Reply(true, Deleted);
  }

  /** `deletePost` as written: its lookup passes both `select` and `include`,
      which the ORM rejects before querying, so every signed-in call ends in
      the catch-all failure and nothing is deleted. */
  function DeletePostAsWritten(db: Db, actor: Option<UserId>, postId: Id): (r: Step<Reply>)
    ensures r.db == db && !r.reply.success
    ensures actor.Some? ==> r.reply == Reply(false, DeleteFailed)
  {
    if actor.None? then Step(db, Reply(false, NotOwner)) else Step(db, Reply(false, DeleteFailed))
  }

  /** The discrepancy: an owner deleting a post with no transaction, which
      the branch logic accepts, is refused by the code as written. */
  lemma DeletePostAsWrittenRefusesOwner()
    ensures var post := Post(0, "donor", "Rice", "Cooked rice", Veg, "2 kg", 1, "Main St", 0.0, 0.0,
                             false, "555", ["img"], Active, 0);
            var db := EmptyDb.(posts := map[0 := post], nextId := 1);
            DeletePostStep(db, Some("donor"), 0).reply.success
            && !DeletePostAsWritten(db, Some("donor"), 0).reply.success
  {
    var post := Post(0, "donor", "Rice", "Cooked rice", Veg, "2 kg", 1, "Main St", 0.0, 0.0,
                     false, "555", ["img"], Active, 0);
    var db := EmptyDb.(posts := map[0 := post], nextId := 1);
    assert !PostHasTransaction(db, 0);
  }

  /** ACTIVE and INACTIVE swap; nothing else is a toggle target. */
  function Flipped(s: PostStatus): (r: PostStatus)
    requires s == Active || s == Inactive
    ensures r != s && (r == Active || r == Inactive)
  {
    if s == Active then Inactive else Active
  }

  /** `togglePostStatus(postId)`. */
  function TogglePostStatusStep(db: Db, actor: Option<UserId>, postId: Id): (r: Step<Reply>)
    ensures !r.reply.success ==> r.db == db
    ensures !Owns(db, actor, postId) ==> r.reply == Reply(false, NotOwner)
    ensures (&& Owns(db, actor, postId)
             && db.posts[postId].status in {Reserved, PostStatus.Completed}) ==>
      r.reply == Reply(false, CannotToggle)
    ensures r.reply.success <==> Owns(db, actor, postId) && db.posts[postId].status in {Active, Inactive}
    ensures r.reply.success ==>
      && r.db == db.(posts := db.posts[postId := db.posts[postId].(status := Flipped(db.posts[postId].status))])
      && r.reply.message == if db.posts[postId].status == Active then MarkedInactive else MarkedActive
  {
    if !Owns(db, actor, postId) then Step(db, Reply(false, NotOwner))
    else
      var post := db.posts[postId];
      if post.status == Reserved || post.status == PostStatus.Completed then Step(db, Reply(false, CannotToggle))
      else
        var status := if post.status == Active then Inactive else Active;
        Step(db.(posts := db.posts[postId := post.(status := status)]),
             Reply(true, if status == Inactive then MarkedInactive else MarkedActive))
  }

  method TogglePostStatus(store: Store, actor: Option<UserId>, postId: Id) returns (reply: Reply)
    modifies store
    ensures Step(store.State(), reply) == TogglePostStatusStep(old(store.State()), actor, postId)
  {
    if actor.None? {
      return Reply(false, NotOwner);
    }
    if postId !in store.posts || store.posts[postId].donorId != actor.value {
      return Reply(false, NotOwner);
    }
    var post := store.posts[postId];
    if post.status == Reserved || post.status == PostStatus.Completed {
      return Reply(false, CannotToggle);
    }
    var status := if post.status == Active then Inactive else Active;
    store.posts := store.posts[postId := post.(status := status)];
    return Reply(true, if status == Inactive then MarkedInactive else MarkedActive);
  }

  /** Toggling twice gives back the store the first toggle started from. */
  lemma ToggleTwiceRestores(db: Db, actor: Option<UserId>, postId: Id)
    requires TogglePostStatusStep(db, actor, postId).reply.success
    ensures TogglePostStatusStep(TogglePostStatusStep(db, actor, postId).db, actor, postId).reply.success
    ensures TogglePostStatusStep(TogglePostStatusStep(db, actor, postId).db, actor, postId).db == db
  {
    var once := TogglePostStatusStep(db, actor, postId).db;
    assert once.posts[postId].status == Flipped(db.posts[postId].status);
    assert once.posts[postId := db.posts[postId]] == db.posts;
  }
}

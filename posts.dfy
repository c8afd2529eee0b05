/** A donor publishing a food post (src/app/actions/post.ts). */
module Posts {
  import opened Wrappers
  import opened Schema
  import opened Text
  import opened Stores
  import opened Users

  const Unauthorized := "Unauthorized"
  const MissingPrefix := "Missing required fields: "
  const InvalidCoordinates := "Invalid coordinates"
  const InvalidExpiry := "Invalid expiry time format"
  const CreateFailed := "Failed to create post: "
  const Created := "Post created successfully!"
  const DefaultImage := "https://images.unsplash.com/photo-1546069901-ba9599a7e63c"

  /** The uploaded image list: the parsed JSON array when the field is filled
      and parses, otherwise empty; an empty list becomes the stock image. */
  function ImagesOf(form: Form, parseImages: string -> Option<seq<string>>): (r: seq<string>)
    ensures |r| >= 1
    ensures (&& Filled(Field(form, "images")) && parseImages(form["images"]).Some?
             && parseImages(form["images"]).value != []) ==>
      r == parseImages(form["images"]).value
    ensures !(&& Filled(Field(form, "images")) && parseImages(form["images"]).Some?
              && parseImages(form["images"]).value != []) ==>
      r == [DefaultImage]
  {
    var parsed := if Filled(Field(form, "images")) && parseImages(form["images"]).Some?
                  then parseImages(form["images"]).value else [];
    if parsed == [] then [DefaultImage] else parsed
  }

  /** `${quantityValue} ${quantityUnit}` when both are filled, the free-text
      `quantity` field otherwise. */
  function QuantityOf(form: Form): (r: Option<string>)
    ensures Filled(Field(form, "quantityValue")) && Filled(Field(form, "quantityUnit")) ==>
      r == Some(form["quantityValue"] + " " + form["quantityUnit"]) && Filled(r)
    ensures !(Filled(Field(form, "quantityValue")) && Filled(Field(form, "quantityUnit"))) ==>
      r == Field(form, "quantity")
  {
    if Filled(Field(form, "quantityValue")) && Filled(Field(form, "quantityUnit"))
    then Some(form["quantityValue"] + " " + form["quantityUnit"])
    else Field(form, "quantity")
  }

  /** The seven required values with the label the error message uses, in
      the order they are checked. */
  function RequiredFields(form: Form): seq<(string, Option<string>)>
  {
    [("Title", Field(form, "title")), ("Description", Field(form, "description")),
     ("Food Type", Field(form, "foodType")), ("Quantity", QuantityOf(form)),
     ("Expiry Time", Field(form, "expiryTime")), ("Pickup Address", Field(form, "address")),
     ("Contact Phone", Field(form, "contactPhone"))]
  }

  /** The labels of the values that are missing or empty, in order. */
  function MissingLabels(fields: seq<(string, Option<string>)>): (r: seq<string>)
    ensures |r| <= |fields|
  {
    if fields == [] then []
    else (if Filled(fields[0].1) then [] else [fields[0].0]) + MissingLabels(fields[1..])
  }

  /** `name` labels a value of `fields` that is missing or empty. */
  predicate IsMissing(fields: seq<(string, Option<string>)>, name: string)
  {
    exists j :: 0 <= j < |fields| && fields[j].0 == name && !Filled(fields[j].1)
  }

  /** The list names every missing value and nothing else; it is empty
      exactly when all values are there. */
  lemma {:induction false} MissingLabelsMeaning(fields: seq<(string, Option<string>)>)
    ensures forall k :: 0 <= k < |fields| && !Filled(fields[k].1) ==> fields[k].0 in MissingLabels(fields)
    ensures forall k :: 0 <= k < |MissingLabels(fields)| ==> IsMissing(fields, MissingLabels(fields)[k])
    ensures MissingLabels(fields) == [] <==> forall k :: 0 <= k < |fields| ==> Filled(fields[k].1)
  {
    if fields != [] {
      var rest := fields[1..];
      MissingLabelsMeaning(rest);
      assert forall k :: 1 <= k < |fields| ==> fields[k] == rest[k - 1];
      var head := if Filled(fields[0].1) then [] else [fields[0].0];
      var r := MissingLabels(fields);
      assert r == head + MissingLabels(rest);
      forall k | 0 <= k < |r|
        ensures IsMissing(fields, r[k])
      {
        if k < |head| {
          assert fields[0].0 == r[k] && !Filled(fields[0].1);
        } else {
          assert r[k] == MissingLabels(rest)[k - |head|];
          assert IsMissing(rest, r[k]);
          var j :| 0 <= j < |rest| && rest[j].0 == r[k] && !Filled(rest[j].1);
          assert fields[j + 1] == rest[j];
        }
      }
    }
  }

  /** Checking one more value adds its label at the end when it is missing. */
  lemma {:induction false} MissingLabelsSnoc(fields: seq<(string, Option<string>)>, f: (string, Option<string>))
    ensures MissingLabels(fields + [f]) == MissingLabels(fields) + (if Filled(f.1) then [] else [f.0])
  {
    if fields == [] {
      assert [f][1..] == [];
    } else {
      assert (fields + [f])[1..] == fields[1..] + [f];
      MissingLabelsSnoc(fields[1..], f);
    }
  }

  /** `parseFloat(formData.get(name))`: a missing value parses as "null",
      which is NaN. */
  function Coordinate(form: Form, name: string, parseFloat: string -> Option<real>): Option<real>
  {
    if name in form then parseFloat(form[name]) else None
  }

  /** `new Date(expiryTime)`, None for an Invalid Date. */
  function ExpiryOf(form: Form, env: Env): Option<int>
  {
    if "expiryTime" in form then env.parseDate(form["expiryTime"]) else None
  }

  /** The food type the form names, if it is one of the enum's values. */
  function FoodTypeField(form: Form): Option<FoodType>
  {
    if "foodType" in form then FoodTypeOf(form["foodType"]) else None
  }

  /** The form passes every check before the write phase. */
  predicate FormValid(form: Form, env: Env)
  {
    && MissingLabels(RequiredFields(form)) == []
    && Coordinate(form, "lat", env.parseFloat).Some? && Coordinate(form, "lng", env.parseFloat).Some?
    && ExpiryOf(form, env).Some?
  }

  /** No missing label means each of the seven values is there. */
  lemma AllRequiredFilled(form: Form)
    requires MissingLabels(RequiredFields(form)) == []
    ensures && Filled(Field(form, "title")) && Filled(Field(form, "description"))
            && Filled(Field(form, "foodType")) && Filled(QuantityOf(form))
            && Filled(Field(form, "expiryTime")) && Filled(Field(form, "address"))
            && Filled(Field(form, "contactPhone"))
  {
    var fields := RequiredFields(form);
    MissingLabelsMeaning(fields);
    assert Filled(fields[0].1) && Filled(fields[1].1) && Filled(fields[2].1) && Filled(fields[3].1);
    assert Filled(fields[4].1) && Filled(fields[5].1) && Filled(fields[6].1);
  }

  /** The post row `createPost` inserts once every check has passed. */
  function NewPost(id: Id, donor: UserId, form: Form, env: Env, foodType: FoodType): Post
    requires FormValid(form, env)
  {
    AllRequiredFilled(form);
    Post(id, donor, form["title"], form["description"], foodType, QuantityOf(form).value,
         ExpiryOf(form, env).value, form["address"],
         Coordinate(form, "lat", env.parseFloat).value, Coordinate(form, "lng", env.parseFloat).value,
         Field(form, "showExactLocation") == Some("on"), form["contactPhone"],
         ImagesOf(form, env.parseImages), Active, env.now)
  }

  /** The answer of the checks that run before anything is written: the
      missing labels, then the coordinates, then the expiry. */
  function FormError(form: Form, env: Env): (e: Option<string>)
    ensures e.None? <==> FormValid(form, env)
    ensures MissingLabels(RequiredFields(form)) != [] ==>
      e == Some(MissingPrefix + Join(MissingLabels(RequiredFields(form)), ", "))
    ensures (&& MissingLabels(RequiredFields(form)) == []
             && (Coordinate(form, "lat", env.parseFloat).None? || Coordinate(form, "lng", env.parseFloat).None?)) ==>
      e == Some(InvalidCoordinates)
    ensures (&& MissingLabels(RequiredFields(form)) == []
             && Coordinate(form, "lat", env.parseFloat).Some? && Coordinate(form, "lng", env.parseFloat).Some?
             && ExpiryOf(form, env).None?) ==>
      e == Some(InvalidExpiry)
  {
    var missing := MissingLabels(RequiredFields(form));
    if missing != [] then Some(MissingPrefix + Join(missing, ", "))
    else if Coordinate(form, "lat", env.parseFloat).None? || Coordinate(form, "lng", env.parseFloat).None? then
      Some(InvalidCoordinates)
    else if ExpiryOf(form, env).None? then Some(InvalidExpiry)
    else None
  }

  /** The write phase: get or create the donor, then insert the post. A
      donor who cannot be created writes nothing; an invalid food type is
      rejected by the store, after the user write. */
  function InsertPost(db: Db, donor: UserId, profile: Profile, form: Form, env: Env): (r: Step<Reply>)
    requires FormValid(form, env)
    ensures !CanUpsert(db.users, donor, profile) ==> r == Step(db, Reply(false, CreateFailed))
    ensures CanUpsert(db.users, donor, profile) ==> r.db.users == EnsureUser(db.users, donor, profile, Donor)
    ensures !r.reply.success ==> r.db.(users := db.users) == db && r.reply == Reply(false, CreateFailed)
    ensures r.reply.success <==>
      CanUpsert(db.users, donor, profile) && FoodTypeField(form).Some? && db.nextId !in db.posts
    ensures r.reply.success ==>
      && r.reply.message == Created
      && r.db.posts == db.posts[db.nextId := NewPost(db.nextId, donor, form, env, FoodTypeField(form).value)]
      && r.db.nextId == db.nextId + 1
      && r.db.requests == db.requests && r.db.transactions == db.transactions
      && r.db.notifications == db.notifications && r.db.messages == db.messages
  {
    AllRequiredFilled(form);
    if !CanUpsert(db.users, donor, profile) then Step(db, Reply(false, CreateFailed))
    else
    var db1 := db.(users := EnsureUser(db.users, donor, profile, Donor));
    match FoodTypeField(form)
    case None => Step(db1, Reply(false, CreateFailed))
    case Some(foodType) =>
      if db1.nextId in db1.posts then Step(db1, Reply(false, CreateFailed))
      else
        Step(db1.(posts := db1.posts[db1.nextId := NewPost(db1.nextId, donor, form, env, foodType)],
                  nextId := db1.nextId + 1),
             Reply(true, Created))
  }

  /** `createPost(form)` for signed-in user `actor` with identity-provider
      profile `profile`. */
  function CreatePostStep(db: Db, actor: Option<UserId>, profile: Option<Profile>, form: Form, env: Env): (r: Step<Reply>)
    ensures actor.None? || profile.None? ==> r == Step(db, Reply(false, Unauthorized))
    // a form that fails a check writes nothing
    ensures actor.Some? && profile.Some? && FormError(form, env).Some? ==>
      r == Step(db, Reply(false, FormError(form, env).value))
    ensures actor.Some? && profile.Some? && FormValid(form, env) ==>
      r == InsertPost(db, actor.value, profile.value, form, env)
  {
    if actor.None? || profile.None? then Step(db, Reply(false, Unauthorized))
    else
      match FormError(form, env)
      case Some(e) => Step(db, Reply(false, e))
      case None => InsertPost(db, actor.value, profile.value, form, env)
  }

  /** The checks on the form, with the missing labels collected by one push
      per required value. */
  method CheckForm(form: Form, env: Env) returns (error: Option<string>)
    ensures error == FormError(form, env)
  {
    var fields := RequiredFields(form);
    var missing := CollectMissing(fields);
    if missing != [] {
      return Some(MissingPrefix + Join(missing, ", "));
    }
    var lat := Coordinate(form, "lat", env.parseFloat);
    var lng := Coordinate(form, "lng", env.parseFloat);
    if lat.None? || lng.None? {
      return Some(InvalidCoordinates);
    }
    if ExpiryOf(form, env).None? {
      return Some(InvalidExpiry);
    }
    return None;
  }

  /** `missingFields`, collected one check at a time. */
  method CollectMissing(fields: seq<(string, Option<string>)>) returns (missing: seq<string>)
    requires |fields| == 7
    ensures missing == MissingLabels(fields)
  {
    missing := [];
    missing := Require(missing, fields, 0);
    missing := Require(missing, fields, 1);
    missing := Require(missing, fields, 2);
    missing := Require(missing, fields, 3);
    missing := Require(missing, fields, 4);
    missing := Require(missing, fields, 5);
    missing := Require(missing, fields, 6);
    assert fields[..7] == fields;
  }

  /** `if (!value) missingFields.push(label)` for the `k`-th required value,
      having checked the ones before it. */
  method Require(missing: seq<string>, fields: seq<(string, Option<string>)>, k: nat) returns (missing': seq<string>)
    requires k < |fields| && missing == MissingLabels(fields[..k])
    ensures missing' == MissingLabels(fields[..k + 1])
  {
    missing' := missing;
    if !Filled(fields[k].1) {
      missing' := missing + [fields[k].0];
    }
    MissingLabelsSnoc(fields[..k], fields[k]);
    assert fields[..k + 1] == fields[..k] + [fields[k]];
  }

  method CreatePost(store: Store, actor: Option<UserId>, profile: Option<Profile>, form: Form, env: Env)
    returns (reply: Reply)
    modifies store
    ensures Step(store.State(), reply) == CreatePostStep(old(store.State()), actor, profile, form, env)
  {
    if actor.None? || profile.None? {
      return Reply(false, Unauthorized);
    }
    var error := CheckForm(form, env);
    if error.Some? {
      return Reply(false, error.value);
    }
    reply := StorePost(store, actor.value, profile.value, form, env);
  }

  method StorePost(store: Store, donor: UserId, profile: Profile, form: Form, env: Env) returns (reply: Reply)
    requires FormValid(form, env)
    modifies store
    ensures Step(store.State(), reply) == InsertPost(old(store.State()), donor, profile, form, env)
  {
    var user := UpsertUser(store, donor, profile, Donor);
    if user.None? {
      return Reply(false, CreateFailed);
    }
    AllRequiredFilled(form);
    var foodType := FoodTypeField(form);
    if foodType.None? || store.nextId in store.posts {
      return Reply(false, CreateFailed);
    }
    var id := store.FreshId();
    store.posts := store.posts[id := NewPost(id, donor, form, env, foodType.value)];
    return Reply(true, Created);
  }

  /** A created post always carries at least one image, belongs to the
      caller, starts ACTIVE at the time of the call and keeps the form's
      quantity and map choice. */
  lemma CreatedPostShape(db: Db, actor: Option<UserId>, profile: Option<Profile>, form: Form, env: Env)
    requires CreatePostStep(db, actor, profile, form, env).reply.success
    ensures var p := CreatePostStep(db, actor, profile, form, env).db.posts[db.nextId];
      && |p.images| >= 1 && p.donorId == actor.value && p.status == Active && p.createdAt == env.now
      && (Filled(Field(form, "quantityValue")) && Filled(Field(form, "quantityUnit")) ==>
            p.quantity == form["quantityValue"] + " " + form["quantityUnit"])
      && (p.showExactMap <==> Field(form, "showExactLocation") == Some("on"))
  {
  }
}

/** The get-or-create step that `createPost` and `createRequest` both run
    before touching their own tables (src/app/actions/post.ts:79-104 and
    src/app/actions/request.ts:27-51). */
module Users {
  import opened Wrappers
  import opened Schema
  import opened Text
  import opened Stores

  /** What the identity provider knows about the signed-in user. The names
      may be null; `email` and `phone` are the first e-mail address and the
      first phone number, if there is one. */
  datatype Profile = Profile(
    firstName: Option<string>, lastName: Option<string>, email: Option<string>, phone: Option<string>,
    imageUrl: string)

  /** A possibly-null string inside a template literal: null renders as
      "null". */
  function Rendered(v: Option<string>): string
  {
    if v.Some? then v.value else "null"
  }

  /** `${firstName} ${lastName}`.trim() */
  function DisplayName(p: Profile): string
  {
    Trim(Rendered(p.firstName) + " " + Rendered(p.lastName))
  }

  /** A null last name is written into the user row as the word "null",
      after the first name. */
  lemma NullNameRenders(p: Profile, first: string)
    requires p.firstName == Some(first) && p.lastName.None?
    requires first != [] && !IsSpace(first[0])
    ensures DisplayName(p) == first + " null"
  {
    var s := first + " null";
    assert s[0] == first[0];
    assert s[|s| - 1] == 'l';
    TrimNoMargin(s);
  }

  /** `phoneNumbers[0]?.phoneNumber || null` */
  function PhoneOf(p: Profile): (r: Option<string>)
    ensures r.Some? ==> r.value != "" && r == p.phone
    ensures Filled(p.phone) ==> r == p.phone
  {
    if Filled(p.phone) then p.phone else None
  }

  /** The user row created on first contact, with the role of the action that
      created it. */
  function NewUser(id: UserId, p: Profile, role: Role): User
    requires p.email.Some?
  {
    User(id, p.email.value, DisplayName(p), PhoneOf(p), p.imageUrl, role)
  }

  /** Whether get-or-create can run: the create reads the first e-mail
      address and throws, before writing anything, when there is none; a
      stored user is never re-read for it. */
  predicate CanUpsert(users: map<UserId, User>, id: UserId, p: Profile)
  {
    id in users || p.email.Some?
  }

  /** A stored user is refreshed when its name or its image is missing. */
  predicate NeedsRefresh(u: User)
  {
    u.name == "" || u.image == ""
  }

  /** The user table after get-or-create for `id`. */
  function EnsureUser(users: map<UserId, User>, id: UserId, p: Profile, role: Role): (r: map<UserId, User>)
    requires CanUpsert(users, id, p)
    ensures r.Keys == users.Keys + {id}
    ensures forall u :: u in users && u != id ==> r[u] == users[u]
    ensures id !in users ==> r[id] == NewUser(id, p, role)
    ensures id in users && NeedsRefresh(users[id]) ==>
      r[id] == users[id].(name := DisplayName(p), image := p.imageUrl)
    ensures id in users && !NeedsRefresh(users[id]) ==> r == users
  {
    if id !in users then users[id := NewUser(id, p, role)]
    else if NeedsRefresh(users[id]) then users[id := users[id].(name := DisplayName(p), image := p.imageUrl)]
    else users
  }

  /** An existing user keeps its id, e-mail, phone and role whatever the
      action: only name and image can be refreshed. */
  lemma EnsureUserKeepsIdentity(users: map<UserId, User>, id: UserId, p: Profile, role: Role)
    requires id in users
    ensures var u := EnsureUser(users, id, p, role)[id];
      u.id == users[id].id && u.email == users[id].email && u.phone == users[id].phone
      && u.role == users[id].role
  {
  }

  /** Get-or-create is idempotent: running it a second time, whatever the
      role, changes nothing, since a refresh writes what the first run wrote. */
  lemma {:induction false} EnsureUserIdempotent(users: map<UserId, User>, id: UserId, p: Profile, role: Role, role': Role)
    requires CanUpsert(users, id, p)
    ensures var once := EnsureUser(users, id, p, role);
      EnsureUser(once, id, p, role') == once
  {
    var once := EnsureUser(users, id, p, role);
    if id !in users || NeedsRefresh(users[id]) {
      RefreshIsNoop(once, id, DisplayName(p), p.imageUrl);
    }
  }

  /** A refresh that writes the values already stored changes nothing. */
  lemma RefreshIsNoop(users: map<UserId, User>, id: UserId, name: string, image: string)
    requires id in users && users[id].name == name && users[id].image == image
    ensures users[id := users[id].(name := name, image := image)] == users
  {
    assert users[id].(name := name, image := image) == users[id];
  }

  /** The imperative get-or-create: a find, then a create or an update;
      `None` when the create throws for want of an e-mail address. */
  method UpsertUser(store: Store, id: UserId, p: Profile, role: Role) returns (user: Option<User>)
    modifies store`users
    ensures !CanUpsert(old(store.users), id, p) ==> user.None? && store.users == old(store.users)
    ensures CanUpsert(old(store.users), id, p) ==>
      store.users == EnsureUser(old(store.users), id, p, role) && user == Some(store.users[id])
  {
    if id !in store.users {
      if p.email.None? {
        return None;
      }
      var created := NewUser(id, p, role);
      store.users := store.users[id := created];
      user := Some(created);
    } else {
      var found := store.users[id];
      if NeedsRefresh(found) {
        found := found.(name := DisplayName(p), image := p.imageUrl);
        store.users := store.users[id := found];
      }
      user := Some(found);
    }
  }
}

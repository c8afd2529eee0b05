/** The store's rows and tables, the values the server actions receive and
    return, and the two read helpers every query is built from. */
module Schema {
  import opened Wrappers

  /** Users are keyed by the identity provider's user id. */
  type UserId = string

  /** Every other row gets a fresh id from the store. */
  type Id = nat

  datatype Role = Donor | Receiver
  datatype FoodType = Veg | NonVeg | Both
  datatype PostStatus = Active | Inactive | Reserved | Completed
  datatype RequestStatus = Pending | Accepted | Rejected
  datatype TxStatus = InProgress | WaitingApproval | Completed
  datatype NoticeType = Info | Success | Warning

  /** A value cast to the `foodType` enum is accepted by the store only when
      it names one of the enum's members. */
  function FoodTypeOf(s: string): (r: Option<FoodType>)
    ensures r.Some? <==> s in {"VEG", "NON_VEG", "BOTH"}
  {
    if s == "VEG" then Some(Veg)
    else if s == "NON_VEG" then Some(NonVeg)
    else if s == "BOTH" then Some(Both)
    else None
  }

  datatype User = User(
    id: UserId, email: string, name: string, phone: Option<string>, image: string, role: Role)

  /** A food post. Time stamps are milliseconds since the epoch. */
  datatype Post = Post(
    id: Id,
    donorId: UserId,
    title: string,
    description: string,
    foodType: FoodType,
    quantity: string,
    expiryTime: int,
    pickupAddress: string,
    pickupLat: real,
    pickupLng: real,
    showExactMap: bool,
    contactPhone: string,
    images: seq<string>,
    status: PostStatus,
    createdAt: int)

  datatype Request = Request(
    id: Id, postId: Id, receiverId: UserId, message: string, status: RequestStatus, createdAt: int)

  /** The reservation created when a request is accepted. */
  datatype Transaction = Transaction(
    id: Id,
    postId: Id,
    donorId: UserId,
    receiverId: UserId,
    status: TxStatus,
    chatRoomId: string,
    createdAt: int,
    completedAt: Option<int>)

  datatype Notification = Notification(
    id: Id, userId: UserId, kind: NoticeType, message: string, link: Option<string>, read: bool,
    createdAt: int)

  datatype ChatMessage = ChatMessage(
    id: Id, transactionId: Id, senderId: UserId, message: string, createdAt: int)

  /** The whole store. `nextId` is the id the next created row receives. */
  datatype Db = Db(
    users: map<UserId, User>,
    posts: map<Id, Post>,
    requests: map<Id, Request>,
    transactions: map<Id, Transaction>,
    notifications: seq<Notification>,
    messages: seq<ChatMessage>,
    nextId: Id)

  const EmptyDb := Db(map[], map[], map[], map[], [], [], 0)

  /** What a server action returns to the page: `{ success, message }`. */
  datatype Reply = Reply(success: bool, message: string)

  /** The store after an action together with the action's answer. */
  datatype Step<R> = Step(db: Db, reply: R)

  /** The submitted form fields: `formData.get(name)` is `null` for a name
      that is not in the map. */
  type Form = map<string, string>

  function Field(form: Form, name: string): (r: Option<string>)
    ensures r.Some? <==> name in form
  {
    if name in form then Some(form[name]) else None
  }

  /** JavaScript truthiness of a form value: present and not empty. */
  predicate Filled(v: Option<string>)
  {
    v.Some? && v.value != ""
  }

  /** The parsers and the clock a form-handling action depends on:
      `new Date(s)` (None for an Invalid Date), `parseFloat` (None for NaN)
      and `JSON.parse` of the images list (None when it throws). */
  datatype Env = Env(
    now: nat,
    parseDate: string -> Option<int>,
    parseFloat: string -> Option<real>,
    parseImages: string -> Option<seq<string>>)

  /** The rows of table `m` whose ids are below `n`, in id order. */
  function Rows<T(==)>(m: map<Id, T>, n: nat): (r: seq<T>)
    ensures |r| <= n
    ensures forall k :: 0 <= k < |r| ==> r[k] in m.Values
    ensures forall id :: id < n && id in m ==> m[id] in r
    ensures |r| == |IdsBelow(m, n)|
  {
    if n == 0 then
      assert IdsBelow(m, n) == {};
      []
    else
      IdsBelowStep(m, n);
      Rows(m, n - 1) + (if n - 1 in m then [m[n - 1]] else [])
  }

  /** Raising the bound by one adds at most the id just below it. */
  lemma IdsBelowStep<T>(m: map<Id, T>, n: nat)
    requires n > 0
    ensures |IdsBelow(m, n)| == |IdsBelow(m, n - 1)| + (if n - 1 in m then 1 else 0)
  {
    if n - 1 in m {
      assert IdsBelow(m, n) == IdsBelow(m, n - 1) + {n - 1};
    } else {
      assert IdsBelow(m, n) == IdsBelow(m, n - 1);
    }
  }

  /** The ids of table `m` below `n`. */
  function IdsBelow<T>(m: map<Id, T>, n: nat): set<Id>
  {
    set id | id in m && id < n
  }
}

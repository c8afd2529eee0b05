/** The chat room each transaction carries (src/app/actions/chat.ts). */
module Chat {
  import opened Wrappers
  import opened Schema
  import opened Text
  import opened Ordering
  import opened Stores
  import opened Notifications
  import opened Transactions

  const Sent := "Message sent"
  const Anonymous := "Anonymous"
  const NoMessages := "Start chatting..."

  /** `{ success: false }`: a refusal carries no message. */
  const Refused := Reply(false, "")

  /** `transaction.findUnique({ where: { chatRoomId } })`, reading rows
      through the id range handed out so far. */
  function FindRoom(txs: map<Id, Transaction>, room: string, n: nat): (r: Option<Id>)
    ensures r.Some? ==> r.value < n && r.value in txs && txs[r.value].chatRoomId == room
    ensures r.None? ==> forall id :: id < n && id in txs ==> txs[id].chatRoomId != room
  {
    if n == 0 then None
    else if n - 1 in txs && txs[n - 1].chatRoomId == room then Some(n - 1)
    else FindRoom(txs, room, n - 1)
  }

  /** The party a message is for: the receiver when the donor writes, the
      donor otherwise. */
  function OtherParty(tx: Transaction, sender: UserId): UserId
  {
    if tx.donorId == sender then tx.receiverId else tx.donorId
  }

  /** `sendMessage(chatRoomId, message)`: the trimmed text is appended to the
      room's transaction and the other party is notified. */
  function SendMessageStep(db: Db, actor: Option<UserId>, room: string, message: string, now: nat,
                           delivered: bool): (r: Step<Reply>)
    ensures !r.reply.success ==> r == Step(db, Refused)
    ensures r.reply.success <==>
      && actor.Some? && Trim(message) != "" && actor.value in db.users
      && FindRoom(db.transactions, room, db.nextId).Some?
    ensures r.reply.success ==>
      var txId := FindRoom(db.transactions, room, db.nextId).value;
      var other := OtherParty(db.transactions[txId], actor.value);
      && r.reply == Reply(true, Sent)
      && r.db.messages == db.messages + [ChatMessage(db.nextId, txId, actor.value, Trim(message), now)]
      && r.db.users == db.users && r.db.posts == db.posts && r.db.requests == db.requests
      && r.db.transactions == db.transactions
      && r.db.notifications == db.notifications +
           (if delivered && other != ""
            then [Notification(db.nextId + 1, other, Info, "New message from " + db.users[actor.value].name,
                               Some(MessagesLink + room), false, now)]
            else [])
      && r.db.nextId == db.nextId + 1 + (if delivered && other != "" then 1 else 0)
  {
    if actor.None? || Trim(message) == "" then Step(db, Refused)
    else if actor.value !in db.users then Step(db, Refused)
    else
      match FindRoom(db.transactions, room, db.nextId)
      case None => Step(db, Refused)
      case Some(id) => Step(Posted(db, id, actor.value, Trim(message), room, now, delivered), Reply(true, Sent))
  }

  /** The store once `text` from `sender` is appended to transaction `id`
      and the other party's notice is attempted. */
  function Posted(db: Db, id: Id, sender: UserId, text: string, room: string, now: nat, delivered: bool): (r: Db)
    requires id in db.transactions && sender in db.users
    ensures r.users == db.users && r.posts == db.posts && r.requests == db.requests
    ensures r.transactions == db.transactions
    ensures r.messages == db.messages + [ChatMessage(db.nextId, id, sender, text, now)]
    ensures var other := OtherParty(db.transactions[id], sender);
      r.notifications == db.notifications +
        (if delivered && other != ""
         then [Notification(db.nextId + 1, other, Info, "New message from " + db.users[sender].name,
                            Some(MessagesLink + room), false, now)]
         else [])
    ensures r.nextId == db.nextId + 1 + (if delivered && OtherParty(db.transactions[id], sender) != "" then 1 else 0)
  {
    var db' := db.(messages := db.messages + [ChatMessage(db.nextId, id, sender, text, now)],
                   nextId := db.nextId + 1);
    var other := OtherParty(db.transactions[id], sender);
    if other != "" then
      CreateNotificationStep(db', other, Info, "New message from " + db.users[sender].name,
                             Some(MessagesLink + room), now, delivered)
    else db'
  }

  method SendMessage(store: Store, actor: Option<UserId>, room: string, message: string, now: nat,
                     delivered: bool) returns (reply: Reply)
    modifies store
    ensures Step(store.State(), reply) == SendMessageStep(old(store.State()), actor, room, message, now, delivered)
  {
    if actor.None? || Trim(message) == "" {
      return Refused;
    }
    if actor.value !in store.users {
      return Refused;
    }
    var found := FindRoom(store.transactions, room, store.nextId);
    if found.None? {
      return Refused;
    }
    Post(store, found.value, actor.value, Trim(message), room, now, delivered);
    reply := Reply(true, Sent);
  }

  /** The append and the notice of a message that passed the checks. */
  method Post(store: Store, id: Id, sender: UserId, text: string, room: string, now: nat, delivered: bool)
    requires id in store.transactions && sender in store.users
    modifies store
    ensures store.State() == Posted(old(store.State()), id, sender, text, room, now, delivered)
  {
    var user := store.users[sender];
    var tx := store.transactions[id];
    var msgId := store.FreshId();
    store.messages := store.messages + [ChatMessage(msgId, id, sender, text, now)];
    var other := OtherParty(tx, sender);
    if other != "" {
      CreateNotification(store, other, Info, "New message from " + user.name, Some(MessagesLink + room), now, delivered);
    }
  }

  /** A party's message reaches the other party, never the sender, as long
      as the two parties differ. */
  lemma MessageGoesToOtherParty(tx: Transaction, sender: UserId)
    requires sender == tx.donorId || sender == tx.receiverId
    requires tx.donorId != tx.receiverId
    ensures OtherParty(tx, sender) != sender
    ensures OtherParty(tx, sender) == tx.donorId || OtherParty(tx, sender) == tx.receiverId
  {
  }

  /** The room a message belongs to, through its transaction. */
  predicate InRoom(db: Db, m: ChatMessage, room: string)
  {
    m.transactionId in db.transactions && db.transactions[m.transactionId].chatRoomId == room
  }

  /** `getMessages(chatRoomId)`: every message of the room and nothing else,
      oldest first; an empty list for a caller who is not signed in. */
  function GetMessages(db: Db, actor: Option<UserId>, room: string): (r: seq<ChatMessage>)
    ensures actor.None? ==> r == []
    ensures forall k :: 0 <= k < |r| ==> r[k] in db.messages && InRoom(db, r[k], room)
    ensures actor.Some? ==>
      forall k :: 0 <= k < |db.messages| && InRoom(db, db.messages[k], room) ==> db.messages[k] in r
    ensures actor.Some? ==> multiset(r) == multiset(Filter(db.messages, (m: ChatMessage) => InRoom(db, m, room)))
    ensures SortedAsc(r, (m: ChatMessage) => m.createdAt)
  {
    match actor
    case None => []
    case Some(_) => QueryAsc(db.messages, (m: ChatMessage) => InRoom(db, m, room), (m: ChatMessage) => m.createdAt)
  }

  /** A message that was sent can be read back from its room, trimmed, by
      anyone signed in. */
  lemma SentMessageIsListed(db: Db, actor: Option<UserId>, room: string, message: string, now: nat,
                            delivered: bool, reader: UserId)
    requires SendMessageStep(db, actor, room, message, now, delivered).reply.success
    ensures var db' := SendMessageStep(db, actor, room, message, now, delivered).db;
      exists m :: m in GetMessages(db', Some(reader), room) && m.message == Trim(message) && m.senderId == actor.value
  {
    var db' := SendMessageStep(db, actor, room, message, now, delivered).db;
    var m := ChatMessage(db.nextId, FindRoom(db.transactions, room, db.nextId).value, actor.value, Trim(message), now);
    assert db'.messages[|db.messages|] == m;
    assert InRoom(db', m, room);
    assert m in GetMessages(db', Some(reader), room);
  }

  /** One row of the chat list. */
  datatype ChatSummary = ChatSummary(
    id: Id, chatRoomId: string, postTitle: string, otherPartyName: string, otherPartyImage: string,
    lastMessage: string, lastMessageTime: int, status: TxStatus)

  /** The user takes part in the transaction. */
  predicate IsParty(tx: Transaction, user: UserId)
  {
    tx.donorId == user || tx.receiverId == user
  }

  /** The rows the list entry of `tx` reads are there: its post and the other
      party. A missing one makes the list's mapping throw. */
  predicate Resolvable(db: Db, user: UserId, tx: Transaction)
  {
    tx.postId in db.posts && OtherParty(tx, user) in db.users
  }

  /** The newest message of the transaction, if any (`take: 1` after
      `orderBy: { createdAt: 'desc' }`). */
  function LastMessage(db: Db, txId: Id): (r: Option<ChatMessage>)
    ensures r.Some? ==> r.value in db.messages && r.value.transactionId == txId
    ensures r.Some? ==> forall k :: 0 <= k < |db.messages| && db.messages[k].transactionId == txId ==>
      db.messages[k].createdAt <= r.value.createdAt
    ensures r.None? <==> forall k :: 0 <= k < |db.messages| ==> db.messages[k].transactionId != txId
  {
    var mine := QueryDesc(db.messages, (m: ChatMessage) => m.transactionId == txId, (m: ChatMessage) => m.createdAt);
    if mine == [] then
      assert forall k :: 0 <= k < |db.messages| ==> db.messages[k].transactionId != txId;
      None
    else
      forall k | 0 <= k < |db.messages| && db.messages[k].transactionId == txId
        ensures db.messages[k].createdAt <= mine[0].createdAt
      {
        assert db.messages[k] in mine;
      }
      Some(mine[0])
  }

  /** The list entry of one transaction, seen by `user`. */
  function Summary(db: Db, user: UserId, tx: Transaction): (s: ChatSummary)
    requires Resolvable(db, user, tx)
    ensures s.id == tx.id && s.chatRoomId == tx.chatRoomId && s.status == tx.status
    ensures s.postTitle == db.posts[tx.postId].title
    ensures var other := db.users[OtherParty(tx, user)];
      && s.otherPartyImage == other.image
      && (s.otherPartyName == if other.name != "" then other.name else Anonymous)
    ensures var last := LastMessage(db, tx.id);
      && (s.lastMessage == if last.Some? && last.value.message != "" then last.value.message else NoMessages)
      && (s.lastMessageTime == if last.Some? then last.value.createdAt else tx.createdAt)
  {
    var other := db.users[OtherParty(tx, user)];
    var last := LastMessage(db, tx.id);
    ChatSummary(tx.id, tx.chatRoomId, db.posts[tx.postId].title,
                if other.name != "" then other.name else Anonymous, other.image,
                if last.Some? && last.value.message != "" then last.value.message else NoMessages,
                if last.Some? then last.value.createdAt else tx.createdAt, tx.status)
  }

  /** The transactions the user takes part in, the newest first. */
  function PartyTransactions(db: Db, user: UserId): (r: seq<Transaction>)
    ensures forall k :: 0 <= k < |r| ==> r[k] in db.transactions.Values && IsParty(r[k], user)
    ensures forall id :: id in db.transactions && id < db.nextId && IsParty(db.transactions[id], user) ==>
      db.transactions[id] in r
    ensures multiset(r) == multiset(Filter(Rows(db.transactions, db.nextId), (t: Transaction) => IsParty(t, user)))
    ensures forall i, j :: 0 <= i < j < |r| ==> r[i].createdAt >= r[j].createdAt
  {
    var all := Rows(db.transactions, db.nextId);
    var r := QueryDesc(all, (t: Transaction) => IsParty(t, user), (t: Transaction) => t.createdAt);
    forall id | id in db.transactions && id < db.nextId && IsParty(db.transactions[id], user)
      ensures db.transactions[id] in r
    {
      var k :| 0 <= k < |all| && all[k] == db.transactions[id];
    }
    r
  }

  /** The rows of the list are well formed: each is the entry of its own
      transaction row. */
  predicate Listable(db: Db, user: UserId, txs: seq<Transaction>)
  {
    forall k :: 0 <= k < |txs| ==>
      Resolvable(db, user, txs[k]) && txs[k].id in db.transactions && db.transactions[txs[k].id] == txs[k]
  }

  /** The list entries of `txs`, in order. */
  function Summaries(db: Db, user: UserId, txs: seq<Transaction>): (r: seq<ChatSummary>)
    requires Listable(db, user, txs)
    ensures |r| == |txs|
    ensures forall k :: 0 <= k < |r| ==> r[k] == Summary(db, user, txs[k])
  {
    seq(|txs|, k requires 0 <= k < |txs| => Summary(db, user, txs[k]))
  }

  /** `getChats()`: one entry per transaction the user takes part in, the
      newest transaction first. Nothing for a caller who is not signed in or
      has no user row, and nothing when some entry cannot be built. */
  function GetChats(db: Db, actor: Option<UserId>): (r: seq<ChatSummary>)
    ensures actor.None? || actor.value !in db.users ==> r == []
    ensures forall k :: 0 <= k < |r| ==>
      && r[k].id in db.transactions
      && IsParty(db.transactions[r[k].id], actor.value)
      && Resolvable(db, actor.value, db.transactions[r[k].id])
      && r[k] == Summary(db, actor.value, db.transactions[r[k].id])
    ensures forall i, j :: 0 <= i < j < |r| ==>
      db.transactions[r[i].id].createdAt >= db.transactions[r[j].id].createdAt
    // when every entry can be built, there is one per transaction and none is missing
    ensures (&& actor.Some? && actor.value in db.users
             && Listable(db, actor.value, PartyTransactions(db, actor.value))) ==>
      |r| == |PartyTransactions(db, actor.value)|
    ensures (&& actor.Some? && actor.value in db.users
             && Listable(db, actor.value, PartyTransactions(db, actor.value))) ==>
      forall id :: id in db.transactions && id < db.nextId && IsParty(db.transactions[id], actor.value) ==>
        exists k :: 0 <= k < |r| && r[k].id == db.transactions[id].id
  {
    if actor.None? || actor.value !in db.users then []
    else
      var user := actor.value;
      var txs := PartyTransactions(db, user);
      if Listable(db, user, txs) then
        var r := Summaries(db, user, txs);
        IdsMatch(db, user, txs, r);
        SummariesCover(db, user, txs, r);
        r
      else []
  }

  /** Every transaction of `txs` has its list entry. */
  lemma SummariesCover(db: Db, user: UserId, txs: seq<Transaction>, r: seq<ChatSummary>)
    requires Listable(db, user, txs)
    requires r == Summaries(db, user, txs)
    ensures forall t :: t in txs ==> exists k :: 0 <= k < |r| && r[k].id == t.id
  {
    forall t | t in txs ensures exists k :: 0 <= k < |r| && r[k].id == t.id {
      var k :| 0 <= k < |txs| && txs[k] == t;
      assert r[k] == Summary(db, user, txs[k]);
    }
  }

  /** Each list entry stands for the transaction row it was built from. */
  lemma IdsMatch(db: Db, user: UserId, txs: seq<Transaction>, r: seq<ChatSummary>)
    requires Listable(db, user, txs)
    requires r == Summaries(db, user, txs)
    ensures forall k :: 0 <= k < |r| ==> r[k].id in db.transactions && db.transactions[r[k].id] == txs[k]
  {
    forall k | 0 <= k < |r| ensures r[k].id in db.transactions && db.transactions[r[k].id] == txs[k] {
      assert r[k] == Summary(db, user, txs[k]);
    }
  }
}

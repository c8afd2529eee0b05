/** The store handle every server action receives: the tables the actions
    read and write in place, standing for the database behind the ORM. */
module Stores {
  import opened Schema

  class Store {
    var users: map<UserId, User>
    var posts: map<Id, Post>
    var requests: map<Id, Request>
    var transactions: map<Id, Transaction>
    var notifications: seq<Notification>
    var messages: seq<ChatMessage>
    var nextId: Id

    /** The tables as one value, which the step functions describe. */
    function State(): Db
      reads this
    {
      Db(users, posts, requests, transactions, notifications, messages, nextId)
    }

    constructor ()
      ensures State() == EmptyDb
    {
      users, posts, requests, transactions := map[], map[], map[], map[];
      notifications, messages, nextId := [], [], 0;
    }

    /** Hands out the id of the next created row. */
    method FreshId() returns (id: Id)
      modifies this`nextId
      ensures id == old(nextId) && nextId == id + 1
    {
      id := nextId;
      nextId := nextId + 1;
    }
  }
}

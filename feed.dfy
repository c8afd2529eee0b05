/** What receivers browse (src/app/actions/feed.ts). */
module Feed {
  import opened Wrappers
  import opened Schema
  import opened Ordering
  import opened Users
  import opened Requests

  /** A post is on offer while ACTIVE and not yet expired. */
  predicate OnOffer(p: Post, now: nat)
  {
    p.status == Active && p.expiryTime > now
  }

  /** `getFeedPosts()`: every post on offer at `now` and nothing else, newest
      first; an empty list for a caller who is not signed in. */
  function GetFeedPosts(db: Db, actor: Option<UserId>, now: nat): (r: seq<Post>)
    ensures actor.None? ==> r == []
    ensures forall k :: 0 <= k < |r| ==> r[k] in db.posts.Values && OnOffer(r[k], now)
    ensures actor.Some? ==>
      forall id :: id in db.posts && id < db.nextId && OnOffer(db.posts[id], now) ==> db.posts[id] in r
    ensures actor.Some? ==> multiset(r) == multiset(Filter(Rows(db.posts, db.nextId), (p: Post) => OnOffer(p, now)))
    ensures SortedDesc(r, (p: Post) => p.createdAt)
  {
    match actor
    case None => []
    case Some(_) =>
      var all := Rows(db.posts, db.nextId);
      var feed := QueryDesc(all, (p: Post) => OnOffer(p, now), (p: Post) => p.createdAt);
      forall id | id in db.posts && id < db.nextId && OnOffer(db.posts[id], now)
        ensures db.posts[id] in feed
      {
        var k :| 0 <= k < |all| && all[k] == db.posts[id];
      }
      feed
  }

  /** Anything the feed shows is open to a request: a signed-in receiver who
      does not own the post and has not asked for it yet gets it recorded. */
  lemma FeedPostRequestable(db: Db, user: UserId, profile: Profile, now: nat, postId: Id,
                            message: string, delivered: bool)
    requires postId in db.posts && db.posts[postId] in GetFeedPosts(db, Some(user), now)
    requires db.posts[postId].donorId != user && !HasRequested(db.requests, postId, user)
    requires db.nextId !in db.requests && message != "" && CanUpsert(db.users, user, profile)
    ensures CreateRequestStep(db, Some(user), Some(profile), RequestForm(Some(postId), Some(message)), now, delivered)
      .reply.success
  {
    var feed := GetFeedPosts(db, Some(user), now);
    var k :| 0 <= k < |feed| && feed[k] == db.posts[postId];
    assert OnOffer(feed[k], now);
  }
}

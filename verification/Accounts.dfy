/** Users and their feeds: the rows, and what is counted, added and removed among them. */
module Accounts {
  import opened Options
  import Keywords

  datatype User = User(google: string, email: string, admin: bool, status: bool, removed: bool,
                       lastLoginAt: Option<int>, lastActiveAt: int)

  datatype Feed = Feed(user: string, name: string, keywords: seq<string>, status: bool, removed: bool)

  const FEED_MAX_PER_USER := 5

  predicate ActiveUser(users: map<string, User>, u: string) {
    u in users && users[u].status && !users[u].removed
  }

  predicate ActiveFeed(feeds: map<string, Feed>, f: string) {
    f in feeds && feeds[f].status && !feeds[f].removed
  }

  predicate Holds(feeds: map<string, Feed>, f: string, user: string) {
    ActiveFeed(feeds, f) && feeds[f].user == user
  }

  /** What CountActiveFeedsByUser counts. */
  function FeedsOf(feeds: map<string, Feed>, user: string): set<string> {
    set f | f in feeds && Holds(feeds, f, user)
  }

  /** FeedController.Create: refused at the limit. */
  function FeedAdded(feeds: map<string, Feed>, id: string, user: string, name: string,
                     keywords: seq<string>): map<string, Feed> {
    if |FeedsOf(feeds, user)| >= FEED_MAX_PER_USER || id in feeds then feeds
    else feeds[id := Feed(user, name, Keywords.NormalizeAll(keywords), true, false)]
  }

  function FeedUpdated(feeds: map<string, Feed>, id: string, user: string, name: string,
                       keywords: seq<string>): map<string, Feed> {
    if !Holds(feeds, id, user) then feeds
    else feeds[id := feeds[id].(name := name, keywords := Keywords.NormalizeAll(keywords))]
  }

  function FeedDeleted(feeds: map<string, Feed>, id: string, user: string): map<string, Feed> {
    if id in feeds && feeds[id].user == user && !feeds[id].removed
    then feeds[id := feeds[id].(status := false, removed := true)] else feeds
  }

  /** SoftDeleteFeedsByUser. */
  function FeedsRemoved(feeds: map<string, Feed>, user: string): map<string, Feed> {
    map f | f in feeds ::
      if feeds[f].user == user && !feeds[f].removed then feeds[f].(status := false, removed := true) else feeds[f]
  }

  // ---------------------------------------------------------------- row by row

  /** All feeds but id are as they were. */
  ghost predicate OthersStay(feeds: map<string, Feed>, later: map<string, Feed>, id: string) {
    feeds.Keys <= later.Keys <= feeds.Keys + {id} && forall f :: f in feeds && f != id ==> later[f] == feeds[f]
  }

  /** A feed is added exactly under a new id and while the user has fewer than five active ones. */
  lemma AddedMeans(feeds: map<string, Feed>, id: string, user: string, name: string, keywords: seq<string>)
    ensures var later := FeedAdded(feeds, id, user, name, keywords);
      var count := |set f | f in feeds && feeds[f].user == user && feeds[f].status && !feeds[f].removed|;
      && OthersStay(feeds, later, id)
      && (id in feeds ==> later == feeds)
      && (id !in feeds ==> (id in later <==> count < 5))
      && (id !in feeds && count < 5 ==>
            && later[id].user == user && later[id].status && !later[id].removed && later[id].name == name
            && later[id].keywords == Keywords.NormalizeAll(keywords))
  {
    assert FeedsOf(feeds, user) == set f | f in feeds && feeds[f].user == user && feeds[f].status && !feeds[f].removed;
  }

  /** An update reaches exactly an active feed of that user: its name and keywords, and nothing else. */
  lemma UpdatedMeans(feeds: map<string, Feed>, id: string, user: string, name: string, keywords: seq<string>)
    ensures var later := FeedUpdated(feeds, id, user, name, keywords);
      && OthersStay(feeds, later, id) && later.Keys == feeds.Keys
      && (id in feeds && feeds[id].user == user && feeds[id].status && !feeds[id].removed ==>
            && later[id].name == name && later[id].keywords == Keywords.NormalizeAll(keywords)
            && later[id].user == user && later[id].status && !later[id].removed)
      && (id in feeds && (feeds[id].user != user || !feeds[id].status || feeds[id].removed) ==> later[id] == feeds[id])
  {
  }

  /** A deletion removes exactly a feed of that user. */
  lemma DeletedMeans(feeds: map<string, Feed>, id: string, user: string)
    ensures var later := FeedDeleted(feeds, id, user);
      && OthersStay(feeds, later, id) && later.Keys == feeds.Keys
      && (id in feeds && feeds[id].user == user ==>
            later[id].removed && later[id].(status := feeds[id].status, removed := feeds[id].removed) == feeds[id])
      && (id in feeds && feeds[id].user == user && !feeds[id].removed ==> !later[id].status)
      && (id in feeds && feeds[id].user != user ==> later[id] == feeds[id])
  {
  }

  /** With a user all their feeds are removed, and nobody else's. */
  lemma AllRemovedMeans(feeds: map<string, Feed>, user: string)
    ensures var later := FeedsRemoved(feeds, user);
      && later.Keys == feeds.Keys
      && (forall f :: f in feeds && feeds[f].user == user ==> later[f].removed && later[f].user == user)
      && (forall f :: f in feeds && feeds[f].user == user && !feeds[f].removed ==> !later[f].status)
      && (forall f :: f in feeds && feeds[f].user != user ==> later[f] == feeds[f])
  {
  }

  // ---------------------------------------------------------------- the limit

  ghost predicate Limited(feeds: map<string, Feed>) {
    forall u :: |FeedsOf(feeds, u)| <= FEED_MAX_PER_USER
  }

  lemma SubsetIsSmaller(a: set<string>, b: set<string>)
    requires a <= b
    ensures |a| <= |b|
  {
    assert b == a + (b - a);
    assert |b| == |a| + |b - a|;
  }

  lemma AddingKeepsLimit(feeds: map<string, Feed>, id: string, user: string, name: string, keywords: seq<string>)
    requires Limited(feeds)
    ensures Limited(FeedAdded(feeds, id, user, name, keywords))
  {
    if |FeedsOf(feeds, user)| < FEED_MAX_PER_USER && id !in feeds {
      forall u ensures |FeedsOf(FeedAdded(feeds, id, user, name, keywords), u)| <= FEED_MAX_PER_USER {
        OneMoreFeed(feeds, id, Feed(user, name, Keywords.NormalizeAll(keywords), true, false), u);
      }
    }
  }

  lemma OneMoreFeed(feeds: map<string, Feed>, id: string, feed: Feed, u: string)
    requires id !in feeds && feed.status && !feed.removed
    ensures |FeedsOf(feeds[id := feed], u)| == |FeedsOf(feeds, u)| + if u == feed.user then 1 else 0
  {
    assert FeedsOf(feeds[id := feed], u) == FeedsOf(feeds, u) + if u == feed.user then {id} else {};
    assert id !in FeedsOf(feeds, u);
  }

  /** Whatever gives nobody a feed keeps everybody within the limit. */
  lemma FewerFeeds(feeds: map<string, Feed>, later: map<string, Feed>)
    requires Limited(feeds) && forall f, u :: Holds(later, f, u) ==> Holds(feeds, f, u)
    ensures Limited(later)
  {
    forall u ensures |FeedsOf(later, u)| <= FEED_MAX_PER_USER {
      assert FeedsOf(later, u) <= FeedsOf(feeds, u);
      SubsetIsSmaller(FeedsOf(later, u), FeedsOf(feeds, u));
    }
  }
}

/** The feed tables as an object, with the controller operations that write them. A statement that the
    database refuses is a parameter. */
module FeedStores {
  import opened Options
  import opened Sequences
  import Tables
  import Keywords
  import opened Accounts
  import opened Judgement
  import opened Candidates
  import opened Feeds
  import Sessions

  datatype Created = Added | LimitReached | Refused

  class FeedStore {
    var db: Tables.Db
    var sys: Sessions.Sys
    var assocs: map<string, Assoc>
    ghost var why: map<string, Why>
    /** Where the pipeline's judgements stand. */
    ghost var waiting: map<string, seq<string>>
    ghost var open: map<string, Judging>

    constructor (now: int)
      ensures Contents() == Start(now)
    {
      db, sys, assocs := Tables.Db(map[], map[], map[]), Sessions.Migrated(now), map[];
      why, waiting, open := map[], map[], map[];
    }

    ghost function Contents(): Site
      reads this
    {
      Site(db, sys, assocs, why, waiting, open)
    }

    /** FeedController.Create: count, then insert, in one transaction. */
    method Create(id: string, user: string, name: string, keywords: seq<string>, countFails: bool,
                  insertFails: bool) returns (r: Created)
      modifies this`sys
      ensures sys == if r.Added? then Sessions.WithFeed(old(sys), user, id, name, keywords) else old(sys)
      ensures r.LimitReached? <==> !countFails && |FeedsOf(old(sys).feeds, user)| >= FEED_MAX_PER_USER
      ensures r.Added?
        <==> (&& !countFails && !insertFails
              && |FeedsOf(old(sys).feeds, user)| < FEED_MAX_PER_USER && id !in old(sys).feeds)
    {
      if countFails {
        return Refused;
      }
      var feeds := sys.feeds;
      var count := |set f | f in feeds && feeds[f].status && !feeds[f].removed && feeds[f].user == user|;
      assert count == |FeedsOf(feeds, user)| by {
        assert FeedsOf(feeds, user) == set f | f in feeds && feeds[f].status && !feeds[f].removed
          && feeds[f].user == user;
      }
      if count >= FEED_MAX_PER_USER {
        return LimitReached;
      }
      if insertFails || id in feeds {
        return Refused;
      }
      sys := sys.(feeds := feeds[id := Feed(user, name, Keywords.NormalizeAll(keywords), true, false)]);
      r := Added;
    }

    /** ArticleFeedController.MarkAsRead: look first, so that the caller learns whether the article is in
        any of the user's feeds. None when a statement failed. */
    method MarkAsRead(article: string, user: string, findFails: bool, updateFails: bool) returns (found: Option<bool>)
      modifies this`assocs
      ensures found.None? <==> findFails || (updateFails && Records(old(Contents()), article, user) != {})
      ensures found.Some? ==> found.value == (Records(old(Contents()), article, user) != {})
      ensures assocs == if found.Some? then MarkedRead(old(Contents()), article, user) else old(assocs)
    {
      if findFails {
        return None;
      }
      var s := Site(db, sys, assocs, map[], map[], map[]);
      if Records(s, article, user) == {} {
        assert forall k :: k in assocs ==> k !in Records(s, article, user);
        assert MarkedRead(Contents(), article, user) == assocs;
        return Some(false);
      }
      if updateFails {
        return None;
      }
      assocs := map k | k in assocs ::
        if assocs[k].article == article && !assocs[k].isRead && Tables.ActiveArticle(db, article)
          && Holds(sys.feeds, assocs[k].feed, user)
        then assocs[k].(isRead := true) else assocs[k];
      found := Some(true);
    }

    /** judge, when nothing else comes in between: candidates, evaluation, and one insert per passed
        result. A lookup that fails leaves everything; an error while evaluating leaves no association. */
    method Judge(article: string, raw: seq<string>, inactiveDays: int, e: Evaluator, judge: nat -> Option<int>,
                 ids: seq<string>, failed: set<nat>, lookupFails: bool)
      returns (ghost v: Verdict)
      requires article in waiting && waiting[article] == raw && |sys.feeds| <= |ids|
      modifies this`assocs, this`why, this`waiting, this`open
      ensures v.evaluator == e && v.judge == judge && v.ids == ids && v.failed == failed
      ensures !lookupFails ==> Listed(old(Contents()), article, inactiveDays, v)
      ensures Contents() == if lookupFails then old(Contents())
                            else if Succeeds(e, v.cands, judge)
                            then InsertedAll(LookedUp(old(Contents()), article, v), article, |v.cands|)
                            else LookedUp(old(Contents()), article, v)
      ensures !lookupFails && Succeeds(e, v.cands, judge) && RowsNew(old(assocs), v) ==>
        && |v.cands| <= |v.ids|
        && forall i :: 0 <= i < |v.cands| ==> RowMade(old(Contents()), Contents(), article, v, i)
    {
      ghost var start := Contents();
      if lookupFails {
        return Verdict(e, [], judge, ids, failed);
      }
      var keywords := Keywords.NormalizeAll(raw);
      var cands := FindCandidatesByKeywords(sys.feeds, sys.users, sys.now, inactiveDays, raw);
      LayerOneExactly(sys.feeds, sys.users, sys.now, inactiveDays, keywords);
      ListingIsShort(sys.feeds, Groups(sys.feeds, sys.users, sys.now, inactiveDays, keywords, true), cands);
      v := Verdict(e, cands, judge, ids, failed);
      var results, _ := Evaluate(e, cands, judge);
      waiting := waiting - {article};
      if results.Some? {
        open := open[article := Judging(keywords, v, 0)];
        InsertResults(results.value, article, ids, failed);
        if RowsNew(start.assocs, v) {
          JudgingMeans(start, article, inactiveDays, v);
        }
      }
    }

    /** The inserts, each in its own transaction; one that fails is skipped. */
    method InsertResults(results: seq<Result>, article: string, ids: seq<string>, failed: set<nat>)
      requires article in open && open[article].done == 0
      requires var v := open[article].verdict; v.ids == ids && v.failed == failed && |v.cands| <= |ids|
                                               && Succeeds(v.evaluator, v.cands, v.judge)
                                               && results == Results(v.evaluator, v.cands, v.judge)
      modifies this`assocs, this`why, this`open
      ensures Contents() == InsertedAll(old(Contents()), article, |results|)
    {
      ghost var start := Contents();
      for i := 0 to |results|
        invariant i <= Left(start, article) && Contents() == InsertedAll(start, article, i)
        invariant article in open && open[article] == start.open[article].(done := i)
        invariant sys == start.sys
      {
        assert results[i] == ResultOf(open[article]);
        InsertResult(results[i], article, ids[i], i in failed);
      }
    }

    /** One turn: the insert of a passed result, or nothing. */
    method InsertResult(r: Result, article: string, id: string, fails: bool)
      requires Ready(Contents(), article)
      requires r == ResultOf(open[article]) && id == open[article].verdict.ids[open[article].done]
      requires fails <==> open[article].done in open[article].verdict.failed
      requires open[article].verdict.cands[open[article].done].keywords.Some?
      modifies this`assocs, this`why, this`open
      ensures Contents() == Inserted(old(Contents()), article)
    {
      ghost var j := open[article];
      open := open[article := j.(done := j.done + 1)];
      if r.passed && !fails && id !in assocs && r.feed in sys.feeds {
        assocs := assocs[id := Assoc(article, r.feed, false)];
        why := why[id := WhyOf(j)];
      }
    }
  }

  /** The turns an article's judging still has. */
  ghost function Left(s: Site, article: string): nat {
    if article in s.open && s.open[article].done <= |s.open[article].verdict.cands| <= |s.open[article].verdict.ids|
    then |s.open[article].verdict.cands| - s.open[article].done else 0
  }

  /** The first n of them, one after another. */
  ghost function InsertedAll(s: Site, article: string, n: nat): (t: Site)
    requires n <= Left(s, article)
    ensures Left(t, article) == Left(s, article) - n
  {
    if n == 0 then s else Inserted(InsertedAll(s, article, n - 1), article)
  }

  /** The ids are for rows that do not exist yet. */
  ghost predicate RowsNew(assocs: map<string, Assoc>, v: Verdict) {
    Distinct(v.ids) && forall id :: id in v.ids ==> id !in assocs
  }

  /** The turn of candidate i leaves its row exactly when it deserves one and this insert does not fail. */
  ghost predicate RowMade(s: Site, t: Site, article: string, v: Verdict, i: nat)
    requires i < |v.cands| <= |v.ids|
  {
    && (v.ids[i] in t.assocs <==> Deserves(v.evaluator, v.cands, v.judge, i) && i !in v.failed)
    && (v.ids[i] in t.assocs ==> t.assocs[v.ids[i]] == Assoc(article, v.cands[i].feed, false))
  }

  /** After n turns: those n rows, every older row, and no other. */
  ghost predicate TurnsTaken(s: Site, t: Site, article: string, v: Verdict, n: nat)
    requires n <= |v.cands| <= |v.ids| && article in s.open
  {
    && t.sys == s.sys && article in t.open && t.open[article] == s.open[article].(done := n)
    && (forall a :: a in s.assocs ==> a in t.assocs && t.assocs[a] == s.assocs[a])
    && (forall a :: a in t.assocs && a !in s.assocs ==> a in v.ids[..n])
    && (forall i :: 0 <= i < n ==> RowMade(s, t, article, v, i))
  }

  lemma OneTurn(s: Site, t: Site, article: string, v: Verdict, n: nat)
    requires article in s.open && s.open[article].verdict == v && n < |v.cands| <= |v.ids|
    requires Succeeds(v.evaluator, v.cands, v.judge) && RowsNew(s.assocs, v)
    requires forall i :: 0 <= i < |v.cands| ==> v.cands[i].feed in s.sys.feeds
    requires TurnsTaken(s, t, article, v, n)
    ensures Ready(t, article) && TurnsTaken(s, Inserted(t, article), article, v, n + 1)
  {
    var u := Inserted(t, article);
    PassedExactly(v.evaluator, v.cands, v.judge, n);
    assert v.ids[..n + 1] == v.ids[..n] + [v.ids[n]];
    assert v.ids[n] in v.ids;
    assert v.ids[n] !in v.ids[..n] by {
      assert forall k :: 0 <= k < n ==> v.ids[k] != v.ids[n];
    }
    assert v.ids[n] !in t.assocs;
    assert RowMade(s, u, article, v, n);
    forall i | 0 <= i < n ensures RowMade(s, u, article, v, i) {
      assert RowMade(s, t, article, v, i) && v.ids[i] != v.ids[n];
    }
  }

  lemma {:induction false} AllTurns(s: Site, article: string, v: Verdict, n: nat)
    requires article in s.open && s.open[article].verdict == v && s.open[article].done == 0
    requires n <= |v.cands| <= |v.ids|
    requires Succeeds(v.evaluator, v.cands, v.judge) && RowsNew(s.assocs, v)
    requires forall i :: 0 <= i < |v.cands| ==> v.cands[i].feed in s.sys.feeds
    ensures TurnsTaken(s, InsertedAll(s, article, n), article, v, n)
  {
    if n == 0 {
    } else {
      AllTurns(s, article, v, n - 1);
      OneTurn(s, InsertedAll(s, article, n - 1), article, v, n - 1);
    }
  }

  /** Uninterrupted, judging an article leaves an association for each candidate that reaches the ratio or
      was scored at the threshold and whose own insert did not fail, none for the others, and every older row
      as it was. */
  lemma JudgingMeans(s: Site, article: string, days: int, v: Verdict)
    requires article in s.waiting && Listed(s, article, days, v)
    requires Succeeds(v.evaluator, v.cands, v.judge) && RowsNew(s.assocs, v)
    ensures var t := InsertedAll(LookedUp(s, article, v), article, |v.cands|);
      && (forall i :: 0 <= i < |v.cands| ==> RowMade(s, t, article, v, i))
      && (forall a :: a in s.assocs ==> a in t.assocs && t.assocs[a] == s.assocs[a])
      && (forall a :: a in t.assocs && a !in s.assocs ==> a in v.ids[..|v.cands|])
  {
    forall i | 0 <= i < |v.cands| ensures v.cands[i].feed in s.sys.feeds {
      var its := Keywords.NormalizeAll(s.waiting[article]);
      assert IsRow(s.sys.feeds, Groups(s.sys.feeds, s.sys.users, s.sys.now, days, its, true), v.cands[i]);
    }
    var open := LookedUp(s, article, v);
    AllTurns(open, article, v, |v.cands|);
    forall i | 0 <= i < |v.cands| ensures RowMade(s, InsertedAll(open, article, |v.cands|), article, v, i) {
      assert RowMade(open, InsertedAll(open, article, |v.cands|), article, v, i);
    }
  }

  lemma ListingIsShort(feeds: map<string, Feed>, groups: map<string, nat>, cands: seq<Candidate>)
    requires Listing(feeds, groups, cands) && groups.Keys <= feeds.Keys
    ensures |cands| <= |feeds|
  {
    NamedCount(cands);
    SubsetIsSmaller(groups.Keys, feeds.Keys);
  }

  lemma {:induction false} NamedCount(cands: seq<Candidate>)
    requires forall i, j :: 0 <= i < j < |cands| ==> cands[i].feed != cands[j].feed
    ensures |Named(cands)| == |cands|
  {
    if cands == [] {
    } else {
      var n := |cands| - 1;
      NamedCount(cands[..n]);
      assert cands == cands[..n] + [cands[n]];
      assert cands[n].feed !in Named(cands[..n]);
      assert Named(cands) == Named(cands[..n]) + {cands[n].feed};
    }
  }
}

/** Judgement layer 1: the feeds that share a keyword with an article, as the join query finds them. */
module Candidates {
  import opened Options
  import opened Sequences
  import opened Judgement
  import Keywords
  import opened Accounts

  const DAY := 86400

  // ---------------------------------------------------------------- the query

  /** The rows of the join of a feed's expanded keywords with the article's, by position. */
  function JoinRows(feed: seq<string>, article: seq<string>): set<(nat, nat)> {
    set i: nat, j: nat | i < |feed| && j < |article| && feed[i] == article[j] :: (i, j)
  }

  /** COUNT(DISTINCT fk.value) over the group of one feed. */
  function OverlapCount(feed: seq<string>, article: seq<string>): nat {
    |set r | r in JoinRows(feed, article) :: feed[r.0]|
  }

  /** f.keywords ?| article. */
  predicate AnyKey(feed: seq<string>, article: seq<string>) {
    exists j :: 0 <= j < |article| && article[j] in feed
  }

  predicate Eligible(feeds: map<string, Feed>, users: map<string, User>, now: int, inactiveDays: int, f: string) {
    && f in feeds && ActiveFeed(feeds, f)
    && ActiveUser(users, feeds[f].user)
    && (inactiveDays == -1 || users[feeds[f].user].lastActiveAt > now - inactiveDays * DAY)
  }

  /** The groups the query returns, with or without its prefilter. */
  function Groups(feeds: map<string, Feed>, users: map<string, User>, now: int, inactiveDays: int, article: seq<string>,
                  prefilter: bool): map<string, nat> {
    map f | f in feeds && Eligible(feeds, users, now, inactiveDays, f)
            && (prefilter ==> AnyKey(feeds[f].keywords, article))
            && JoinRows(feeds[f].keywords, article) != {}
         :: OverlapCount(feeds[f].keywords, article)
  }

  lemma JoinMeansShared(feed: seq<string>, article: seq<string>)
    ensures (set r | r in JoinRows(feed, article) :: feed[r.0]) == Elements(feed) * Elements(article)
    ensures JoinRows(feed, article) != {} <==> Elements(feed) * Elements(article) != {}
    ensures AnyKey(feed, article) <==> Elements(feed) * Elements(article) != {}
  {
    forall x | x in Elements(feed) * Elements(article)
      ensures x in set r | r in JoinRows(feed, article) :: feed[r.0]
      ensures AnyKey(feed, article)
    {
      var i :| 0 <= i < |feed| && feed[i] == x;
      var j :| 0 <= j < |article| && article[j] == x;
      assert (i, j) in JoinRows(feed, article);
    }
    forall r | r in JoinRows(feed, article) ensures feed[r.0] in Elements(feed) * Elements(article) {
      assert article[r.1] in article;
    }
    if AnyKey(feed, article) {
      var j :| 0 <= j < |article| && article[j] in feed;
      assert article[j] in Elements(feed) * Elements(article);
    }
  }

  /** The candidates are exactly the eligible feeds whose keyword set meets the article's; the overlap
      is the size of what they share and never more than the feed has keywords; and the index
      predicate never changes the result. */
  lemma LayerOneExactly(feeds: map<string, Feed>, users: map<string, User>, now: int, days: int, article: seq<string>)
    ensures Groups(feeds, users, now, days, article, true) == Groups(feeds, users, now, days, article, false)
    ensures forall f :: f in Groups(feeds, users, now, days, article, true) <==>
      Eligible(feeds, users, now, days, f) && Elements(feeds[f].keywords) * Elements(article) != {}
    ensures forall f :: f in Groups(feeds, users, now, days, article, true) ==>
      && Groups(feeds, users, now, days, article, true)[f] == |Elements(feeds[f].keywords) * Elements(article)|
      && 1 <= Groups(feeds, users, now, days, article, true)[f] <= |feeds[f].keywords|
  {
    var g := Groups(feeds, users, now, days, article, true);
    forall f | f in feeds
      ensures JoinRows(feeds[f].keywords, article) != {} <==> Elements(feeds[f].keywords) * Elements(article) != {}
      ensures AnyKey(feeds[f].keywords, article) <==> Elements(feeds[f].keywords) * Elements(article) != {}
    {
      JoinMeansShared(feeds[f].keywords, article);
    }
    forall f | f in g
      ensures g[f] == |Elements(feeds[f].keywords) * Elements(article)| && 1 <= g[f] <= |feeds[f].keywords|
    {
      JoinMeansShared(feeds[f].keywords, article);
      ElementsAreFew(feeds[f].keywords);
      SubsetIsSmaller(Elements(feeds[f].keywords) * Elements(article), Elements(feeds[f].keywords));
    }
    assert g == Groups(feeds, users, now, days, article, false);
  }

  /** A feed is a candidate exactly when it and its owner are active, the owner was seen within the window
      (-1: no window), and it has a keyword of the article; the count is of the keywords they share. */
  lemma CandidateExactly(feeds: map<string, Feed>, users: map<string, User>, now: int, days: int,
                         article: seq<string>, f: string)
    ensures var groups := Groups(feeds, users, now, days, article, true);
      && (f in groups <==>
            && f in feeds && feeds[f].status && !feeds[f].removed
            && feeds[f].user in users && users[feeds[f].user].status && !users[feeds[f].user].removed
            && (days == -1 || now - users[feeds[f].user].lastActiveAt < days * 86400)
            && exists x :: x in feeds[f].keywords && x in article)
      && (f in groups ==> groups[f] == |set x | x in feeds[f].keywords && x in article|)
  {
    LayerOneExactly(feeds, users, now, days, article);
    if f in feeds {
      SharedMeans(feeds[f].keywords, article);
    }
  }

  lemma SharedMeans(feed: seq<string>, article: seq<string>)
    ensures Elements(feed) * Elements(article) == set x | x in feed && x in article
    ensures Elements(feed) * Elements(article) != {} <==> exists x :: x in feed && x in article
  {
    if x :| x in feed && x in article {
      assert x in Elements(feed) * Elements(article);
    }
    if Elements(feed) * Elements(article) != {} {
      var x :| x in Elements(feed) * Elements(article);
      assert x in feed && x in article;
    }
  }

  predicate IsRow(feeds: map<string, Feed>, groups: map<string, nat>, c: Candidate) {
    c.feed in groups && c.feed in feeds && c == Candidate(c.feed, Some(feeds[c.feed].keywords), groups[c.feed])
  }

  function Named(cands: seq<Candidate>): set<string> {
    set c | c in cands :: c.feed
  }

  /** cands lists the groups, each once, in whatever order the query returns them. */
  ghost predicate Listing(feeds: map<string, Feed>, groups: map<string, nat>, cands: seq<Candidate>) {
    && (forall i, j :: 0 <= i < j < |cands| ==> cands[i].feed != cands[j].feed)
    && (forall i :: 0 <= i < |cands| ==> IsRow(feeds, groups, cands[i]))
    && Named(cands) == groups.Keys
  }

  /** A listing has exactly the groups, each with its feed's keywords and its count. */
  lemma ListingMeans(feeds: map<string, Feed>, groups: map<string, nat>, cands: seq<Candidate>, f: string)
    requires Listing(feeds, groups, cands)
    ensures f in groups <==> exists i :: 0 <= i < |cands| && cands[i].feed == f
    ensures forall i :: 0 <= i < |cands| && cands[i].feed == f ==>
      f in feeds && cands[i].keywords == Some(feeds[f].keywords) && f in groups && cands[i].overlap == groups[f]
  {
    assert forall i :: 0 <= i < |cands| ==> IsRow(feeds, groups, cands[i]);
    if f in groups {
      assert f in Named(cands);
      var c :| c in cands && c.feed == f;
    }
  }

  /** The loop that turns the rows into candidates. */
  method ListRows(feeds: map<string, Feed>, rows: map<string, nat>) returns (cands: seq<Candidate>)
    requires rows.Keys <= feeds.Keys
    ensures Listing(feeds, rows, cands)
  {
    cands := [];
    var todo := rows.Keys;
    while todo != {}
      invariant todo <= rows.Keys && Named(cands) == rows.Keys - todo
      invariant forall i, j :: 0 <= i < j < |cands| ==> cands[i].feed != cands[j].feed
      invariant forall i :: 0 <= i < |cands| ==> IsRow(feeds, rows, cands[i])
      decreases todo
    {
      var f :| f in todo;
      var c := Candidate(f, Some(feeds[f].keywords), rows[f]);
      forall i | 0 <= i < |cands| ensures cands[i].feed != f {
        assert cands[i] in cands;
        assert cands[i].feed in Named(cands);
      }
      assert Named(cands + [c]) == Named(cands) + {f} by {
        assert forall d :: d in cands + [c] <==> d in cands || d == c;
      }
      cands := cands + [c];
      todo := todo - {f};
    }
  }

  /** FindCandidatesByKeywords: the article's keywords are normalized by the storage rule first. */
  method FindCandidatesByKeywords(feeds: map<string, Feed>, users: map<string, User>, now: int, inactiveDays: int,
                                  keywords: seq<string>)
    returns (cands: seq<Candidate>)
    ensures Listing(feeds, Groups(feeds, users, now, inactiveDays, Keywords.NormalizeAll(keywords), false), cands)
  {
    LayerOneExactly(feeds, users, now, inactiveDays, Keywords.NormalizeAll(keywords));
    if keywords == [] {
      assert Groups(feeds, users, now, inactiveDays, [], true) == map[];
      return [];
    }
    cands := ListRows(feeds, Groups(feeds, users, now, inactiveDays, Keywords.NormalizeAll(keywords), true));
  }
}

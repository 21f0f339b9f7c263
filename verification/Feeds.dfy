/** Feeds and their articles at the grain of transactions: saving an article, looking its candidates up,
    inserting one association, and every request of the accounts in between. Queries that must agree
    although they join different tables do so because the removals cascade. */
module Feeds {
  import opened Sequences
  import opened Options
  import opened Tables
  import opened Keywords
  import opened Accounts
  import opened Judgement
  import opened Candidates
  import Runs
  import Sessions
  import AccountEffects

  datatype Assoc = Assoc(article: string, feed: string, isRead: bool)

  /** Why the pipeline made an association: the thresholds, the keywords compared, and the result. */
  datatype Why = Why(evaluator: Evaluator, article: seq<string>, keywords: seq<string>, result: Result)

  /** What judging one article meets: the candidates as the query listed them, the judger's answers, an
      id for each result, and which inserts fail. */
  datatype Verdict = Verdict(evaluator: Evaluator, cands: seq<Candidate>, judge: nat -> Option<int>,
                             ids: seq<string>, failed: set<nat>)

  /** An article whose results are being inserted; done of them had their turn. */
  datatype Judging = Judging(keywords: seq<string>, verdict: Verdict, done: nat)

  /** waiting are the saved articles not looked up yet, with the keywords their naming returned. why is
      history. */
  datatype Site = Site(db: Db, sys: Sessions.Sys, assocs: map<string, Assoc>, why: map<string, Why>,
                       waiting: map<string, seq<string>>, open: map<string, Judging>)

  /** Each is one transaction. Save is the pipeline up to and including persist; Account is any request of
      the accounts, the creation of a feed and the removal of a user among them. */
  datatype Act =
    | Content(step: Runs.Step)
    | Save(item: Runs.Step)
    | Lookup(article: string, inactiveDays: int, verdict: Verdict)
    | Insert(article: string)
    | Account(expiry: Sessions.Expiry, request: Sessions.Step)
    | UpdateFeed(id: string, user: string, name: string, keywords: seq<string>)
    | DeleteFeed(id: string, user: string)
    | MarkRead(article: string, user: string)

  function Start(now: int): Site {
    Site(Db(map[], map[], map[]), Sessions.Migrated(now), map[], map[], map[], map[])
  }

  // ---------------------------------------------------------------- what the acts do

  /** judge up to the inserts: an error while evaluating ends it. */
  ghost function LookedUp(s: Site, article: string, v: Verdict): Site
    requires article in s.waiting
  {
    s.(waiting := s.waiting - {article},
       open := if Succeeds(v.evaluator, v.cands, v.judge)
               then s.open[article := Judging(NormalizeAll(s.waiting[article]), v, 0)] else s.open)
  }

  predicate Ready(s: Site, article: string) {
    article in s.open && HasTurn(s.open[article])
  }

  /** The insert for the next result, if it passed; one that fails is skipped. The feed may have been
      edited or removed since the lookup: the foreign key only asks for its row. */
  ghost function Inserted(s: Site, article: string): Site
    requires Ready(s, article)
  {
    var j := s.open[article];
    var t := s.(open := s.open[article := j.(done := j.done + 1)]);
    if !Takes(s, j) then t
    else t.(assocs := AfterTurn(s.assocs, article, j, true), why := s.why[j.verdict.ids[j.done] := WhyOf(j)])
  }

  predicate HasTurn(j: Judging) {
    j.done < |j.verdict.cands| <= |j.verdict.ids|
  }

  function ResultOf(j: Judging): Result
    requires HasTurn(j)
  {
    ResultAt(j.verdict.evaluator, j.verdict.cands, j.verdict.judge, j.done)
  }

  function WhyOf(j: Judging): Why
    requires HasTurn(j) && j.verdict.cands[j.done].keywords.Some?
  {
    Why(j.verdict.evaluator, j.keywords, j.verdict.cands[j.done].keywords.value, ResultOf(j))
  }

  /** The insert for the next result happens and succeeds. */
  predicate Takes(s: Site, j: Judging)
    requires HasTurn(j)
  {
    && ResultOf(j).passed && j.done !in j.verdict.failed && j.verdict.ids[j.done] !in s.assocs
    && ResultOf(j).feed in s.sys.feeds && j.verdict.cands[j.done].keywords.Some?
  }

  /** The associations after a turn of article: one more, or none. */
  function AfterTurn(assocs: map<string, Assoc>, article: string, j: Judging, isNew: bool): map<string, Assoc>
    requires HasTurn(j)
  {
    if isNew then assocs[j.verdict.ids[j.done] := Assoc(article, ResultOf(j).feed, false)] else assocs
  }

  ghost predicate Listed(s: Site, article: string, inactiveDays: int, v: Verdict)
    requires article in s.waiting
  {
    && |v.cands| <= |v.ids|
    && var its := NormalizeAll(s.waiting[article]);
       Listing(s.sys.feeds, Groups(s.sys.feeds, s.sys.users, s.sys.now, inactiveDays, its, true), v.cands)
  }

  /** What is assumed: the lookup lists the candidates of layer 1 for the article's keywords. */
  ghost predicate Admissible(s: Site, act: Act) {
    match act
    case Content(step) => !step.Process?
    case Save(item) => item.Process?
    case Lookup(article, days, v) => article in s.waiting && Listed(s, article, days, v)
    case Insert(article) => Ready(s, article)
    case _ => true
  }

  /** MarkArticleAsReadForUser. */
  function MarkedRead(s: Site, article: string, user: string): map<string, Assoc> {
    map k | k in s.assocs ::
      if s.assocs[k].article == article && ActiveArticle(s.db, article) && Holds(s.sys.feeds, s.assocs[k].feed, user)
      then s.assocs[k].(isRead := true) else s.assocs[k]
  }

  ghost function Saved(s: Site, cfg: Config, item: Runs.Step): Site
    requires item.Process?
  {
    var db := Runs.NextDb(s.db, cfg, item);
    s.(db := db,
       waiting := if item.named.Some? && item.aid !in s.db.articles && item.aid in db.articles
                  then s.waiting[item.aid := item.named.value] else s.waiting)
  }

  ghost function Apply(s: Site, cfg: Config, act: Act): Site
    requires Admissible(s, act)
  {
    match act
    case Content(step) => s.(db := Runs.NextDb(s.db, cfg, step))
    case Save(item) => Saved(s, cfg, item)
    case Lookup(article, _, v) => LookedUp(s, article, v)
    case Insert(article) => Inserted(s, article)
    case Account(e, request) => s.(sys := Sessions.Next(s.sys, e, request))
    case UpdateFeed(id, user, name, keywords) =>
      s.(sys := s.sys.(feeds := FeedUpdated(s.sys.feeds, id, user, name, keywords)))
    case DeleteFeed(id, user) => s.(sys := s.sys.(feeds := FeedDeleted(s.sys.feeds, id, user)))
    case MarkRead(article, user) => s.(assocs := MarkedRead(s, article, user))
  }

  ghost predicate Legal(s: Site, cfg: Config, acts: seq<Act>)
    decreases acts
  {
    acts == [] || (Admissible(s, acts[0]) && Legal(Apply(s, cfg, acts[0]), cfg, acts[1..]))
  }

  ghost function Exec(s: Site, cfg: Config, acts: seq<Act>): Site
    requires Legal(s, cfg, acts)
    decreases acts
  {
    if acts == [] then s else Exec(Apply(s, cfg, acts[0]), cfg, acts[1..])
  }

  // ---------------------------------------------------------------- associations

  /** The association shared a keyword, and was automatic at the ratio or scored at the threshold. */
  predicate Justified(y: Why) {
    && y.result.overlap == |Elements(y.keywords) * Elements(y.article)| >= 1
    && y.result.decision == Triage(y.evaluator, |y.keywords|, y.result.overlap)
    && y.result.decision != Discarded
    && (y.result.decision == Judged ==> y.result.score >= y.evaluator.threshold)
  }

  predicate SamePair(x: Assoc, y: Assoc) {
    x.article == y.article && x.feed == y.feed
  }

  ghost predicate OnePerPair(assocs: map<string, Assoc>) {
    forall a, b :: a in assocs && b in assocs && SamePair(assocs[a], assocs[b]) ==> a == b
  }

  predicate Explained(assocs: map<string, Assoc>, why: map<string, Why>, a: string)
    requires a in assocs
  {
    a in why && why[a].result.feed == assocs[a].feed && Justified(why[a])
  }

  ghost predicate AllExplained(assocs: map<string, Assoc>, why: map<string, Why>) {
    forall a :: a in assocs ==> Explained(assocs, why, a)
  }

  /** A candidate shares as many keywords with the article as it says, and at least one. */
  predicate Founded(c: Candidate, article: seq<string>) {
    c.keywords.Some? && c.overlap == |Elements(c.keywords.value) * Elements(article)| >= 1
  }

  ghost predicate JudgingFits(j: Judging) {
    && j.done <= |j.verdict.cands| <= |j.verdict.ids|
    && (forall i, k :: 0 <= i < k < |j.verdict.cands| ==> j.verdict.cands[i].feed != j.verdict.cands[k].feed)
    && (forall i :: 0 <= i < |j.verdict.cands| ==> Founded(j.verdict.cands[i], j.keywords))
  }

  /** The article's associations are with feeds in names. */
  ghost predicate Among(assocs: map<string, Assoc>, article: string, names: set<string>) {
    forall a :: a in assocs && assocs[a].article == article ==> assocs[a].feed in names
  }

  ghost predicate OpenFits(assocs: map<string, Assoc>, article: string, j: Judging) {
    JudgingFits(j) && Among(assocs, article, Named(j.verdict.cands[..j.done]))
  }

  /** Only articles that were saved are judged, each once. */
  ghost predicate Turns(articles: set<string>, assocs: map<string, Assoc>, waiting: map<string, seq<string>>,
                        open: map<string, Judging>) {
    && (forall a :: a in assocs ==> assocs[a].article in articles)
    && (forall x :: x in waiting ==> x in articles && x !in open && Among(assocs, x, {}))
    && (forall x :: x in open ==> x in articles && OpenFits(assocs, x, open[x]))
  }

  ghost predicate Judgements(s: Site) {
    OnePerPair(s.assocs) && AllExplained(s.assocs, s.why) && Turns(s.db.articles.Keys, s.assocs, s.waiting, s.open)
  }

  lemma SavingKeepsTurns(articles: set<string>, later: set<string>, assocs: map<string, Assoc>, waiting: map<string,
                         seq<string>>,
                         open: map<string, Judging>, aid: string, keywords: seq<string>)
    requires Turns(articles, assocs, waiting, open) && articles <= later
    ensures Turns(later, assocs, waiting, open)
    ensures aid !in articles && aid in later ==> Turns(later, assocs, waiting[aid := keywords], open)
  {
  }

  lemma ListingFits(s: Site, article: string, days: int, v: Verdict)
    requires article in s.waiting && Listed(s, article, days, v)
    ensures JudgingFits(Judging(NormalizeAll(s.waiting[article]), v, 0))
  {
    var keywords := NormalizeAll(s.waiting[article]);
    forall i | 0 <= i < |v.cands| ensures Founded(v.cands[i], keywords) {
      assert IsRow(s.sys.feeds, Groups(s.sys.feeds, s.sys.users, s.sys.now, days, keywords, true), v.cands[i]);
      LayerOneExactly(s.sys.feeds, s.sys.users, s.sys.now, days, keywords);
    }
  }

  lemma LookupKeepsJudgements(s: Site, article: string, days: int, v: Verdict)
    requires Judgements(s) && article in s.waiting && Listed(s, article, days, v)
    ensures Judgements(LookedUp(s, article, v))
  {
    ListingFits(s, article, days, v);
    assert Named(v.cands[..0]) == {};
  }

  lemma NamedGrows(cands: seq<Candidate>, i: nat)
    requires i < |cands|
    ensures Named(cands[..i + 1]) == Named(cands[..i]) + {cands[i].feed}
  {
    assert cands[..i + 1] == cands[..i] + [cands[i]];
  }

  /** A new row for a pair that has none. */
  lemma OneMore(assocs: map<string, Assoc>, why: map<string, Why>, id: string, x: Assoc, y: Why)
    requires OnePerPair(assocs) && AllExplained(assocs, why) && id !in assocs
    requires y.result.feed == x.feed && Justified(y)
    requires forall a :: a in assocs ==> !SamePair(assocs[a], x)
    ensures OnePerPair(assocs[id := x]) && AllExplained(assocs[id := x], why[id := y])
  {
    var later, reasons := assocs[id := x], why[id := y];
    forall a | a in later ensures Explained(later, reasons, a) {
      if a != id { assert Explained(assocs, why, a); }
    }
  }

  lemma PassedIsJustified(j: Judging)
    requires JudgingFits(j) && HasTurn(j) && ResultOf(j).passed
    ensures Justified(WhyOf(j))
  {
    assert Founded(j.verdict.cands[j.done], j.keywords);
  }

  lemma OwnTurn(assocs: map<string, Assoc>, article: string, j: Judging, isNew: bool)
    requires OpenFits(assocs, article, j) && HasTurn(j)
    requires isNew ==> j.verdict.ids[j.done] !in assocs
    ensures OpenFits(AfterTurn(assocs, article, j, isNew), article, j.(done := j.done + 1))
  {
    NamedGrows(j.verdict.cands, j.done);
  }

  lemma OthersTurn(assocs: map<string, Assoc>, article: string, j: Judging, isNew: bool, x: string, names: set<string>)
    requires HasTurn(j) && x != article && Among(assocs, x, names)
    ensures Among(AfterTurn(assocs, article, j, isNew), x, names)
  {
  }

  /** A turn of article touches no other article's. */
  lemma TurnKeepsTurns(articles: set<string>, assocs: map<string, Assoc>, waiting: map<string, seq<string>>,
                       open: map<string, Judging>,
                       article: string, isNew: bool)
    requires Turns(articles, assocs, waiting, open) && article in open && HasTurn(open[article])
    requires isNew ==> open[article].verdict.ids[open[article].done] !in assocs
    ensures Turns(articles, AfterTurn(assocs, article, open[article], isNew), waiting,
      open[article := open[article].(done := open[article].done + 1)])
  {
    var j := open[article];
    OwnTurn(assocs, article, j, isNew);
    forall x | x in waiting ensures Among(AfterTurn(assocs, article, j, isNew), x, {}) {
      OthersTurn(assocs, article, j, isNew, x, {});
    }
    forall x | x in open && x != article ensures OpenFits(AfterTurn(assocs, article, j, isNew), x, open[x]) {
      OthersTurn(assocs, article, j, isNew, x, Named(open[x].verdict.cands[..open[x].done]));
    }
  }

  /** The candidate whose turn it is has no row for the article yet. */
  lemma PairIsNew(assocs: map<string, Assoc>, article: string, j: Judging)
    requires OpenFits(assocs, article, j) && j.done < |j.verdict.cands|
    ensures forall a :: a in assocs ==> !SamePair(assocs[a], Assoc(article, j.verdict.cands[j.done].feed, false))
  {
    assert j.verdict.cands[j.done].feed !in Named(j.verdict.cands[..j.done]);
  }

  lemma TakenIsNew(assocs: map<string, Assoc>, why: map<string, Why>, article: string, j: Judging)
    requires OnePerPair(assocs) && AllExplained(assocs, why) && OpenFits(assocs, article, j)
    requires HasTurn(j) && ResultOf(j).passed && j.verdict.ids[j.done] !in assocs
    ensures j.verdict.cands[j.done].keywords.Some?
    ensures OnePerPair(AfterTurn(assocs, article, j, true))
    ensures AllExplained(AfterTurn(assocs, article, j, true), why[j.verdict.ids[j.done] := WhyOf(j)])
  {
    PassedIsJustified(j);
    PairIsNew(assocs, article, j);
    OneMore(assocs, why, j.verdict.ids[j.done], Assoc(article, ResultOf(j).feed, false), WhyOf(j));
  }

  lemma InsertKeepsJudgements(s: Site, article: string)
    requires Judgements(s) && Ready(s, article)
    ensures Judgements(Inserted(s, article))
  {
    var j := s.open[article];
    TurnKeepsTurns(s.db.articles.Keys, s.assocs, s.waiting, s.open, article, Takes(s, j));
    if Takes(s, j) {
      TakenIsNew(s.assocs, s.why, article, j);
    }
  }

  lemma ReadingKeepsJudgements(s: Site, article: string, user: string)
    requires Judgements(s)
    ensures Judgements(s.(assocs := MarkedRead(s, article, user)))
  {
    var later := MarkedRead(s, article, user);
    forall a | a in later ensures Explained(later, s.why, a) {
      assert Explained(s.assocs, s.why, a);
    }
    forall a, b | a in later && b in later && SamePair(later[a], later[b]) ensures a == b {
      assert SamePair(s.assocs[a], s.assocs[b]);
    }
    forall x | x in s.open ensures OpenFits(later, x, s.open[x]) {
      assert OpenFits(s.assocs, x, s.open[x]);
    }
  }

  // ---------------------------------------------------------------- content and accounts

  /** An active article has an active source. */
  ghost predicate SourcesLive(db: Db) {
    forall a :: ActiveArticle(db, a) ==> ActiveSource(db, db.articles[a].source)
  }

  lemma ContentKeepsArticles(db: Db, cfg: Config, step: Runs.Step)
    ensures db.articles.Keys <= Runs.NextDb(db, cfg, step).articles.Keys
  {
  }

  lemma ContentKeepsSourcesLive(db: Db, cfg: Config, step: Runs.Step)
    requires SourcesLive(db)
    ensures SourcesLive(Runs.NextDb(db, cfg, step))
  {
    var later := Runs.NextDb(db, cfg, step);
    if step.Process? {
      SavingKeepsSourcesLive(db, later, cfg, step);
    } else {
      forall a | ActiveArticle(later, a) ensures ActiveSource(later, later.articles[a].source) {
        if a in db.articles {
          assert ActiveArticle(db, a);
        }
      }
    }
  }

  /** The source was checked before the insert. */
  lemma SavingKeepsSourcesLive(db: Db, later: Db, cfg: Config, step: Runs.Step)
    requires SourcesLive(db) && step.Process? && later == Runs.NextDb(db, cfg, step)
    ensures SourcesLive(later)
  {
    assert later.sources == db.sources;
    forall a | ActiveArticle(later, a) ensures ActiveSource(later, later.articles[a].source) {
      if a in db.articles {
        assert ActiveArticle(db, a);
      }
    }
  }

  /** Sound accounts, and nobody above the feed limit. */
  ghost predicate AccountsFit(sys: Sessions.Sys) {
    Sessions.Safe(sys) && Limited(sys.feeds)
  }

  lemma RequestKeepsLimit(sys: Sessions.Sys, e: Sessions.Expiry, request: Sessions.Step)
    requires Limited(sys.feeds)
    ensures Limited(Sessions.Next(sys, e, request).feeds)
  {
    var later := Sessions.Next(sys, e, request).feeds;
    match request
    case CreateFeed(c, id, name, keywords) => AddingKeepsLimit(sys.feeds, id, c.user, name, keywords);
    case RemoveUser(u) => FewerFeeds(sys.feeds, later);
    case _ => assert later == sys.feeds;
  }

  lemma EditKeepsAccounts(sys: Sessions.Sys, id: string, user: string, name: string, keywords: seq<string>)
    requires AccountsFit(sys)
    ensures AccountsFit(sys.(feeds := FeedUpdated(sys.feeds, id, user, name, keywords)))
  {
    FewerFeeds(sys.feeds, FeedUpdated(sys.feeds, id, user, name, keywords));
  }

  lemma DeletionKeepsAccounts(sys: Sessions.Sys, id: string, user: string)
    requires AccountsFit(sys)
    ensures AccountsFit(sys.(feeds := FeedDeleted(sys.feeds, id, user)))
  {
    FewerFeeds(sys.feeds, FeedDeleted(sys.feeds, id, user));
  }

  // ---------------------------------------------------------------- every run

  ghost predicate Inv(s: Site) {
    Judgements(s) && SourcesLive(s.db) && AccountsFit(s.sys)
  }

  lemma ContentKeepsInv(s: Site, cfg: Config, act: Act)
    requires Inv(s) && Admissible(s, act) && (act.Content? || act.Save?)
    ensures Inv(Apply(s, cfg, act))
  {
    var step := if act.Content? then act.step else act.item;
    var later := Runs.NextDb(s.db, cfg, step);
    ContentKeepsArticles(s.db, cfg, step);
    ContentKeepsSourcesLive(s.db, cfg, step);
    var aid := if act.Save? then act.item.aid else "";
    var keywords := if act.Save? && act.item.named.Some? then act.item.named.value else [];
    SavingKeepsTurns(s.db.articles.Keys, later.articles.Keys, s.assocs, s.waiting, s.open, aid, keywords);
  }

  lemma ActKeepsInv(s: Site, cfg: Config, act: Act)
    requires Inv(s) && Admissible(s, act)
    ensures Inv(Apply(s, cfg, act))
  {
    match act
    case Content(_) => ContentKeepsInv(s, cfg, act);
    case Save(_) => ContentKeepsInv(s, cfg, act);
    case Lookup(article, days, v) => LookupKeepsJudgements(s, article, days, v);
    case Insert(article) => InsertKeepsJudgements(s, article);
    case Account(e, request) =>
      Sessions.StepKeepsSafe(s.sys, e, request);
      RequestKeepsLimit(s.sys, e, request);
    case UpdateFeed(id, user, name, keywords) => EditKeepsAccounts(s.sys, id, user, name, keywords);
    case DeleteFeed(id, user) => DeletionKeepsAccounts(s.sys, id, user);
    case MarkRead(article, user) => ReadingKeepsJudgements(s, article, user);
  }

  lemma StartFits(now: int)
    ensures Inv(Start(now))
  {
  }

  lemma {:induction false} RunKeepsInv(s: Site, cfg: Config, acts: seq<Act>)
    requires Inv(s) && Legal(s, cfg, acts)
    ensures Inv(Exec(s, cfg, acts))
    decreases acts
  {
    if acts == [] {
    } else {
      ActKeepsInv(s, cfg, acts[0]);
      RunKeepsInv(Apply(s, cfg, acts[0]), cfg, acts[1..]);
    }
  }

  // ---------------------------------------------------------------- what an act reaches

  /** Requests act on the accounts, and content steps on the content, as they do elsewhere. */
  lemma ActMeans(s: Site, cfg: Config, act: Act)
    requires Admissible(s, act)
    ensures act.Content? ==> Apply(s, cfg, act) == s.(db := Runs.NextDb(s.db, cfg, act.step))
    ensures act.Save? ==> Apply(s, cfg, act).(waiting := s.waiting) == s.(db := Runs.NextDb(s.db, cfg, act.item))
    ensures act.Account? ==> Apply(s, cfg, act) == s.(sys := Sessions.Next(s.sys, act.expiry, act.request))
    ensures act.UpdateFeed? ==>
      Apply(s, cfg, act).sys == s.sys.(feeds := FeedUpdated(s.sys.feeds, act.id, act.user, act.name, act.keywords))
    ensures act.DeleteFeed? ==> Apply(s, cfg, act).sys == s.sys.(feeds := FeedDeleted(s.sys.feeds, act.id, act.user))
    ensures act.MarkRead? ==> Apply(s, cfg, act).assocs == MarkedRead(s, act.article, act.user)
  {
  }

  /** An article that the pipeline saves waits to be judged under the keywords it was named with. */
  lemma SavedWaits(s: Site, cfg: Config, item: Runs.Step)
    requires item.Process? && item.named.Some? && item.aid !in s.db.articles
    requires item.aid in Runs.NextDb(s.db, cfg, item).articles
    ensures item.aid in Saved(s, cfg, item).waiting && Saved(s, cfg, item).waiting[item.aid] == item.named.value
  {
  }

  /** A lookup without an error opens the inserting of its results, from the first. */
  lemma LookedUpOpens(s: Site, article: string, v: Verdict)
    requires article in s.waiting && Succeeds(v.evaluator, v.cands, v.judge)
    ensures article in LookedUp(s, article, v).open && article !in LookedUp(s, article, v).waiting
    ensures LookedUp(s, article, v).open[article] == Judging(NormalizeAll(s.waiting[article]), v, 0)
  {
  }

  /** The article of the row is active, and its feed is an active one of the user. */
  predicate Counts(s: Site, user: string, f: string, k: string)
    requires k in s.assocs
  {
    var a := s.assocs[k];
    && a.feed == f && f in s.sys.feeds
    && s.sys.feeds[f].user == user && s.sys.feeds[f].status && !s.sys.feeds[f].removed
    && a.article in s.db.articles && s.db.articles[a.article].status && !s.db.articles[a.article].removed
  }

  /** A mark reads exactly the rows of the article, if it is active, that are in active feeds of the user. */
  lemma MarkedMeans(s: Site, article: string, user: string, k: string)
    requires k in s.assocs
    ensures var a, later := s.assocs[k], MarkedRead(s, article, user);
      && later.Keys == s.assocs.Keys
      && later[k].article == a.article && later[k].feed == a.feed
      && (later[k].isRead <==> a.isRead || (a.article == article && Counts(s, user, a.feed, k)))
  {
  }

  /** The poll counts the unread rows of active articles in the feed, if it is an active one of the user. */
  lemma UnreadMeans(s: Site, user: string, f: string, k: string)
    ensures k in UnreadGroup(s, user, f) <==> k in s.assocs && Counts(s, user, f, k) && !s.assocs[k].isRead
  {
  }

  /** So does the list, for rows as the filter asks, and sources that are active. */
  lemma ListMeans(s: Site, user: string, f: string, isRead: Option<bool>, k: string)
    ensures k in FeedList(s, user, f, isRead) <==>
      && k in s.assocs && Counts(s, user, f, k) && (isRead.Some? ==> s.assocs[k].isRead == isRead.value)
      && var source := s.db.articles[s.assocs[k].article].source;
         source in s.db.sources && s.db.sources[source].status && !s.db.sources[source].removed
  {
  }

  predicate Shares(feeds: map<string, Feed>, f: string, article: seq<string>) {
    f in feeds && exists x :: x in feeds[f].keywords && x in article
  }

  /** Whoever has just logged in or refreshed is within every window: their active feeds that share a keyword
      are candidates. */
  lemma JustSeenIsCandidate(s: Sessions.Sys, e: Sessions.Expiry, id: string, f: string, days: int, article: seq<string>)
    requires Sessions.Refreshed(s, e, id).Some? && days >= 1
    requires Shares(s.feeds, f, article) && Holds(s.feeds, f, s.tokens[id].user)
    ensures var t := Sessions.Refreshed(s, e, id).value;
      f in Groups(t.feeds, t.users, t.now, days, article, true)
  {
    var t := Sessions.Refreshed(s, e, id).value;
    AccountEffects.RefreshMeans(s, e, id);
    CandidateExactly(t.feeds, t.users, t.now, days, article, f);
  }

  lemma JustLoggedInIsCandidate(s: Sessions.Sys, e: Sessions.Expiry, u: string, id: string, f: string, days: int,
                                article: seq<string>)
    requires Sessions.Active(s, u) && Sessions.Opened(s, e, u, id).Some? && days >= 1
    requires Shares(s.feeds, f, article) && Holds(s.feeds, f, u)
    ensures var t := Sessions.Opened(s, e, u, id).value;
      f in Groups(t.feeds, t.users, t.now, days, article, true)
  {
    var t := Sessions.Opened(s, e, u, id).value;
    AccountEffects.OpenedMeans(s, e, u, id);
    CandidateExactly(t.feeds, t.users, t.now, days, article, f);
  }

  // ---------------------------------------------------------------- where associations come from

  /** The states a run visits, the first and the last among them. */
  ghost function Trace(s: Site, cfg: Config, acts: seq<Act>): seq<Site>
    requires Legal(s, cfg, acts)
    decreases acts
  {
    if acts == [] then [s] else [s] + Trace(Apply(s, cfg, acts[0]), cfg, acts[1..])
  }

  /** Between moments k - 1 and k the article was saved, under these keywords. */
  predicate SavedAt(past: seq<Site>, k: int, article: string, keywords: seq<string>) {
    && 0 < k < |past| && article !in past[k - 1].db.articles
    && article in past[k].db.articles && past[k].db.articles[article].keywords == keywords
  }

  /** At moment k the article was waiting with its keywords, and the feed was active, of an active owner,
      with these keywords. */
  predicate ListedAt(past: seq<Site>, k: int, article: string, feed: string, its: seq<string>, keywords: seq<string>) {
    && 0 <= k < |past|
    && article in past[k].waiting && NormalizeAll(past[k].waiting[article]) == its
    && ActiveFeed(past[k].sys.feeds, feed) && past[k].sys.feeds[feed].keywords == keywords
    && ActiveUser(past[k].sys.users, past[k].sys.feeds[feed].user)
  }

  ghost predicate WasSaved(past: seq<Site>, article: string, keywords: seq<string>) {
    exists k :: SavedAt(past, k, article, keywords)
  }

  ghost predicate WasListed(past: seq<Site>, article: string, feed: string, its: seq<string>, keywords: seq<string>) {
    exists k :: ListedAt(past, k, article, feed, its, keywords)
  }

  /** What an association rests on: the keywords its article was saved under, and those its feed had when
      it was looked up. */
  ghost predicate Grounded(past: seq<Site>, x: Assoc, y: Why) {
    WasSaved(past, x.article, y.article) && WasListed(past, x.article, x.feed, y.article, y.keywords)
  }

  ghost predicate AllGrounded(past: seq<Site>, assocs: map<string, Assoc>, why: map<string, Why>) {
    forall a :: a in assocs ==> a in why && Grounded(past, assocs[a], why[a])
  }

  ghost predicate CandidateGrounded(past: seq<Site>, article: string, its: seq<string>, c: Candidate) {
    c.keywords.Some? && WasListed(past, article, c.feed, its, c.keywords.value)
  }

  ghost predicate JudgingGrounded(past: seq<Site>, article: string, j: Judging) {
    && WasSaved(past, article, j.keywords)
    && (forall i :: 0 <= i < |j.verdict.cands| ==> CandidateGrounded(past, article, j.keywords, j.verdict.cands[i]))
  }

  ghost predicate OpenGrounded(past: seq<Site>, open: map<string, Judging>) {
    forall x :: x in open ==> JudgingGrounded(past, x, open[x])
  }

  ghost predicate WaitingGrounded(past: seq<Site>, waiting: map<string, seq<string>>) {
    forall x :: x in waiting ==> WasSaved(past, x, NormalizeAll(waiting[x]))
  }

  ghost predicate HistoryFits(past: seq<Site>, s: Site) {
    && AllGrounded(past, s.assocs, s.why)
    && OpenGrounded(past, s.open)
    && WaitingGrounded(past, s.waiting)
  }

  // A longer past shows what a shorter one did.

  lemma SavedStays(past: seq<Site>, later: seq<Site>, article: string, keywords: seq<string>)
    requires past <= later && WasSaved(past, article, keywords)
    ensures WasSaved(later, article, keywords)
  {
    var k :| SavedAt(past, k, article, keywords);
    assert SavedAt(later, k, article, keywords);
  }

  lemma ListedStays(past: seq<Site>, later: seq<Site>, article: string, feed: string, its: seq<string>,
                    keywords: seq<string>)
    requires past <= later && WasListed(past, article, feed, its, keywords)
    ensures WasListed(later, article, feed, its, keywords)
  {
    var k :| ListedAt(past, k, article, feed, its, keywords);
    assert ListedAt(later, k, article, feed, its, keywords);
  }

  lemma JudgingStays(past: seq<Site>, later: seq<Site>, article: string, j: Judging)
    requires past <= later && JudgingGrounded(past, article, j)
    ensures JudgingGrounded(later, article, j)
  {
    SavedStays(past, later, article, j.keywords);
    forall i | 0 <= i < |j.verdict.cands| ensures CandidateGrounded(later, article, j.keywords, j.verdict.cands[i]) {
      var c := j.verdict.cands[i];
      assert CandidateGrounded(past, article, j.keywords, c);
      ListedStays(past, later, article, c.feed, j.keywords, c.keywords.value);
    }
  }

  lemma HistoryStays(past: seq<Site>, later: seq<Site>, s: Site)
    requires past <= later && HistoryFits(past, s)
    ensures HistoryFits(later, s)
  {
    forall a | a in s.assocs ensures Grounded(later, s.assocs[a], s.why[a]) {
      SavedStays(past, later, s.assocs[a].article, s.why[a].article);
      ListedStays(past, later, s.assocs[a].article, s.assocs[a].feed, s.why[a].article, s.why[a].keywords);
    }
    forall x | x in s.open ensures JudgingGrounded(later, x, s.open[x]) {
      JudgingStays(past, later, x, s.open[x]);
    }
    forall x | x in s.waiting ensures WasSaved(later, x, NormalizeAll(s.waiting[x])) {
      SavedStays(past, later, x, NormalizeAll(s.waiting[x]));
    }
  }

  // Each act; past ends in the state the act is taken in, t is the state it leads to.

  /** A save writes the article under the keywords its naming returned. */
  lemma SavedUnderItsKeywords(db: Db, cfg: Config, item: Runs.Step)
    requires item.Process? && item.named.Some? && item.aid !in db.articles
    requires item.aid in Runs.NextDb(db, cfg, item).articles
    ensures Runs.NextDb(db, cfg, item).articles[item.aid].keywords == NormalizeAll(item.named.value)
  {
  }

  lemma SaveKeepsHistory(past: seq<Site>, s: Site, cfg: Config, item: Runs.Step)
    requires past != [] && past[|past| - 1] == s && HistoryFits(past, s) && item.Process?
    ensures HistoryFits(past + [Saved(s, cfg, item)], Saved(s, cfg, item))
  {
    var t := Saved(s, cfg, item);
    HistoryStays(past, past + [t], s);
    if item.named.Some? && item.aid !in s.db.articles && item.aid in t.db.articles {
      SavedUnderItsKeywords(s.db, cfg, item);
      assert SavedAt(past + [t], |past|, item.aid, NormalizeAll(item.named.value));
    }
  }

  lemma ListedNow(past: seq<Site>, s: Site, article: string, days: int, v: Verdict)
    requires past != [] && past[|past| - 1] == s && WaitingGrounded(past, s.waiting)
    requires article in s.waiting && Listed(s, article, days, v)
    ensures JudgingGrounded(past, article, Judging(NormalizeAll(s.waiting[article]), v, 0))
  {
    var its := NormalizeAll(s.waiting[article]);
    forall i | 0 <= i < |v.cands| ensures CandidateGrounded(past, article, its, v.cands[i]) {
      assert IsRow(s.sys.feeds, Groups(s.sys.feeds, s.sys.users, s.sys.now, days, its, true), v.cands[i]);
      assert ListedAt(past, |past| - 1, article, v.cands[i].feed, its, v.cands[i].keywords.value);
    }
  }

  lemma LookupKeepsHistory(past: seq<Site>, s: Site, article: string, days: int, v: Verdict)
    requires past != [] && past[|past| - 1] == s && HistoryFits(past, s)
    requires article in s.waiting && Listed(s, article, days, v)
    ensures HistoryFits(past, LookedUp(s, article, v))
  {
    ListedNow(past, s, article, days, v);
  }

  lemma TakenIsGrounded(past: seq<Site>, article: string, j: Judging)
    requires JudgingGrounded(past, article, j) && HasTurn(j)
    ensures j.verdict.cands[j.done].keywords.Some?
    ensures Grounded(past, Assoc(article, ResultOf(j).feed, false), WhyOf(j))
  {
    assert CandidateGrounded(past, article, j.keywords, j.verdict.cands[j.done]);
  }

  lemma OneMoreGrounded(past: seq<Site>, assocs: map<string, Assoc>, why: map<string, Why>, id: string, x: Assoc,
                        y: Why)
    requires AllGrounded(past, assocs, why) && Grounded(past, x, y)
    ensures AllGrounded(past, assocs[id := x], why[id := y])
  {
  }

  lemma TakenKeepsGrounds(past: seq<Site>, assocs: map<string, Assoc>, why: map<string, Why>, article: string,
                          j: Judging)
    requires AllGrounded(past, assocs, why) && JudgingGrounded(past, article, j) && HasTurn(j)
    ensures j.verdict.cands[j.done].keywords.Some?
    ensures AllGrounded(past, AfterTurn(assocs, article, j, true), why[j.verdict.ids[j.done] := WhyOf(j)])
  {
    TakenIsGrounded(past, article, j);
    OneMoreGrounded(past, assocs, why, j.verdict.ids[j.done], Assoc(article, ResultOf(j).feed, false), WhyOf(j));
  }

  lemma TurnKeepsGrounds(past: seq<Site>, open: map<string, Judging>, article: string)
    requires OpenGrounded(past, open) && article in open
    ensures OpenGrounded(past, open[article := open[article].(done := open[article].done + 1)])
  {
    var later := open[article := open[article].(done := open[article].done + 1)];
    forall x | x in later ensures JudgingGrounded(past, x, later[x]) {
      assert JudgingGrounded(past, x, open[x]);
    }
  }

  lemma InsertKeepsHistory(past: seq<Site>, s: Site, article: string)
    requires HistoryFits(past, s) && Ready(s, article)
    ensures HistoryFits(past, Inserted(s, article))
  {
    InsertKeepsGrounds(past, s, article);
    InsertKeepsOpenGrounds(past, s, article);
  }

  lemma InsertKeepsOpenGrounds(past: seq<Site>, s: Site, article: string)
    requires OpenGrounded(past, s.open) && WaitingGrounded(past, s.waiting) && Ready(s, article)
    ensures OpenGrounded(past, Inserted(s, article).open) && WaitingGrounded(past, Inserted(s, article).waiting)
  {
    TurnKeepsGrounds(past, s.open, article);
  }

  lemma InsertKeepsGrounds(past: seq<Site>, s: Site, article: string)
    requires AllGrounded(past, s.assocs, s.why) && OpenGrounded(past, s.open) && Ready(s, article)
    ensures AllGrounded(past, Inserted(s, article).assocs, Inserted(s, article).why)
  {
    assert JudgingGrounded(past, article, s.open[article]);
    if Takes(s, s.open[article]) {
      TakenKeepsGrounds(past, s.assocs, s.why, article, s.open[article]);
    }
  }

  lemma ReadingKeepsHistory(past: seq<Site>, s: Site, article: string, user: string)
    requires HistoryFits(past, s)
    ensures HistoryFits(past, s.(assocs := MarkedRead(s, article, user)))
  {
    var later := MarkedRead(s, article, user);
    forall a | a in later ensures a in s.why && Grounded(past, later[a], s.why[a]) {
      assert Grounded(past, s.assocs[a], s.why[a]);
    }
  }

  lemma ActKeepsHistory(past: seq<Site>, s: Site, cfg: Config, act: Act)
    requires past != [] && past[|past| - 1] == s && HistoryFits(past, s) && Admissible(s, act)
    ensures HistoryFits(past + [Apply(s, cfg, act)], Apply(s, cfg, act))
  {
    var t := Apply(s, cfg, act);
    if act.Save? {
      SaveKeepsHistory(past, s, cfg, act.item);
    } else {
      assert HistoryFits(past, t) by {
        match act
        case Lookup(article, days, v) => LookupKeepsHistory(past, s, article, days, v);
        case Insert(article) => InsertKeepsHistory(past, s, article);
        case MarkRead(article, user) => ReadingKeepsHistory(past, s, article, user);
        case _ =>
      }
      HistoryStays(past, past + [t], t);
    }
  }

  lemma {:induction false} RunKeepsHistory(past: seq<Site>, s: Site, cfg: Config, acts: seq<Act>)
    requires Legal(s, cfg, acts) && HistoryFits(past + [s], s)
    ensures HistoryFits(past + Trace(s, cfg, acts), Exec(s, cfg, acts))
    decreases acts
  {
    if acts == [] {
    } else {
      var t := Apply(s, cfg, acts[0]);
      ActKeepsHistory(past + [s], s, cfg, acts[0]);
      RunKeepsHistory(past + [s], t, cfg, acts[1..]);
      assert past + [s] + Trace(t, cfg, acts[1..]) == past + ([s] + Trace(t, cfg, acts[1..]));
    }
  }

  /** However the transactions of the sweeps and of all other requests interleave: at most one association
      per article and feed; each automatic at the ratio or scored at the threshold, for the keywords that
      its article was saved under and those that its feed, then active, had when it was looked up, which
      share at least one; and no user ever owns more active feeds than the limit. */
  lemma EveryRunAssociatesSafely(now: int, cfg: Config, acts: seq<Act>)
    requires Legal(Start(now), cfg, acts)
    ensures var t := Exec(Start(now), cfg, acts);
      && OnePerPair(t.assocs) && AllExplained(t.assocs, t.why)
      && AllGrounded(Trace(Start(now), cfg, acts), t.assocs, t.why)
      && Limited(t.sys.feeds)
  {
    StartFits(now);
    RunKeepsInv(Start(now), cfg, acts);
    RunKeepsHistory([], Start(now), cfg, acts);
    assert [] + Trace(Start(now), cfg, acts) == Trace(Start(now), cfg, acts);
  }

  // ---------------------------------------------------------------- queries that agree by the cascade

  /** The rows CountUnreadArticlesByFeedForUser groups under feed f (no group when there are none). */
  function UnreadGroup(s: Site, user: string, f: string): set<string> {
    set k | k in s.assocs && s.assocs[k].feed == f && Holds(s.sys.feeds, f, user)
            && !s.assocs[k].isRead && ActiveArticle(s.db, s.assocs[k].article)
  }

  /** The rows of ListArticlesByFeedForUser, before paging; the period filters are not set. */
  function FeedList(s: Site, user: string, f: string, isRead: Option<bool>): set<string> {
    set k | k in s.assocs && s.assocs[k].feed == f && Holds(s.sys.feeds, f, user)
            && (isRead.None? || s.assocs[k].isRead == isRead.value)
            && ActiveArticle(s.db, s.assocs[k].article)
            && ActiveSource(s.db, s.db.articles[s.assocs[k].article].source)
  }

  /** In every reachable state the poll's unread count of a feed is the total of its list filtered to
      unread, although only the list joins the sources. */
  lemma CountersAgree(now: int, cfg: Config, acts: seq<Act>, user: string, f: string)
    requires Legal(Start(now), cfg, acts)
    ensures var t := Exec(Start(now), cfg, acts);
      |UnreadGroup(t, user, f)| == |FeedList(t, user, f, Some(false))|
  {
    StartFits(now);
    RunKeepsInv(Start(now), cfg, acts);
    var t := Exec(Start(now), cfg, acts);
    assert UnreadGroup(t, user, f) == FeedList(t, user, f, Some(false));
  }

  /** In every reachable state the candidate query, with the inactivity window off, would find the same
      feeds without its join on users: an active feed has an active owner. */
  lemma OwnerJoinIsRedundant(now: int, cfg: Config, acts: seq<Act>, f: string)
    requires Legal(Start(now), cfg, acts)
    ensures var sys := Exec(Start(now), cfg, acts).sys;
      Eligible(sys.feeds, sys.users, sys.now, -1, f) <==> ActiveFeed(sys.feeds, f)
  {
    StartFits(now);
    RunKeepsInv(Start(now), cfg, acts);
  }

  // ---------------------------------------------------------------- read marks

  /** FindArticleFeedsByArticleAndUser. */
  function Records(s: Site, article: string, user: string): set<string> {
    set k | k in s.assocs && s.assocs[k].article == article && ActiveArticle(s.db, article)
            && Holds(s.sys.feeds, s.assocs[k].feed, user)
  }

  /** The user's records of an article: the rows of it that count for one of their feeds. */
  lemma RecordsMean(s: Site, article: string, user: string, k: string)
    ensures k in Records(s, article, user) <==>
      k in s.assocs && s.assocs[k].article == article && Counts(s, user, s.assocs[k].feed, k)
  {
  }

  /** IsReadState: nothing without records, true only when all are read. */
  method IsReadState(records: seq<Assoc>) returns (r: Option<bool>)
    ensures r.None? <==> records == []
    ensures r == Some(true) <==> records != [] && forall i :: 0 <= i < |records| ==> records[i].isRead
  {
    if records == [] {
      return None;
    }
    for i := 0 to |records|
      invariant forall j :: 0 <= j < i ==> records[j].isRead
    {
      if !records[i].isRead {
        return Some(false);
      }
    }
    r := Some(true);
  }

  /** Marking an article read for a user reads exactly that user's records of it: they are all read
      afterwards, the user's unread counts lose exactly them, every other row stays, and doing it
      again changes nothing. */
  lemma MarkReadExactly(s: Site, cfg: Config, article: string, user: string, f: string)
    ensures var t := Apply(s, cfg, MarkRead(article, user));
      && Records(t, article, user) == Records(s, article, user)
      && (forall k :: k in Records(t, article, user) ==> t.assocs[k].isRead)
      && t.assocs.Keys == s.assocs.Keys
      && (forall k :: k in s.assocs && k !in Records(s, article, user) ==> t.assocs[k] == s.assocs[k])
      && UnreadGroup(t, user, f) == UnreadGroup(s, user, f) - Records(s, article, user)
      && Apply(t, cfg, MarkRead(article, user)) == t
  {
    var t := Apply(s, cfg, MarkRead(article, user));
    assert Apply(t, cfg, MarkRead(article, user)).assocs == t.assocs;
  }
}

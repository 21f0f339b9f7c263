/** The per-article pipeline over the database object. Each runTx is Begin, statements, and either
    falling through (commit) or Rollback. */
module Discovery {
  import opened Options
  import opened Html
  import opened OutboundLinks
  import opened Tables
  import opened Stores

  /** alreadyExists: None when the lookup failed. */
  method AlreadyExists(store: Store, url: string) returns (r: Option<bool>)
    requires store.Consistent()
    modifies store`served
    ensures store.served == old(store.served) + 1
    ensures r == if store.down(old(store.served)) then None else Some(Owner(store.Contents(), url).Some?)
  {
    var hit := store.FindArticleByURLOriginal(url);
    r := match hit
      case Unavailable => None
      case UniqueViolation => None
      case Row(_) => Some(true)
      case NoRows => Some(false);
  }

  /** resolveInternalURLs: one lookup per href, in one read transaction. */
  method ResolveInternalURLs(store: Store, clientURL: string, hrefs: seq<string>) returns (ok: bool, pages: Renaming)
    requires store.Consistent()
    modifies store`served
    ensures old(store.served) <= store.served
    ensures store.UpSince(old(store.served)) ==> ok
    ensures ok ==> pages == InternalPages(store.Contents(), clientURL, hrefs)
  {
    pages := map[];
    for i := 0 to |hrefs|
      invariant old(store.served) <= store.served
      invariant store.Consistent() && store.Contents() == old(store.Contents())
      invariant pages == InternalPages(store.Contents(), clientURL, hrefs[..i])
    {
      var hit := store.FindArticleByURLOriginal(hrefs[i]);
      assert hrefs[..i + 1] == hrefs[..i] + [hrefs[i]];
      match hit
      case Row(id) => pages := pages[hrefs[i] := clientURL + "/articles/" + id];
      case NoRows =>
      case _ => return false, pages;
    }
    assert hrefs[..|hrefs|] == hrefs;
    ok := true;
  }

  /** urltreatment.Treat with that resolver; on an error the body comes back as it was. */
  method Treat(store: Store, clientURL: string, content: Forest, faults: Faults) returns (ok: bool, out: Forest)
    requires store.Consistent()
    modifies store`served
    ensures old(store.served) <= store.served
    ensures store.UpSince(old(store.served)) && !Faulty(faults) ==> ok
    ensures Faulty(faults) ==> out == content
    ensures out == if ok then TreatBody(store.Contents(), clientURL, content) else content
  {
    RewriteIdentity(content, map[]);
    if faults.parse {
      return false, content;
    }
    var nodes := Parse(content);
    var seen, hrefs := CollectInto(nodes, {}, []);
    if hrefs == [] {
      assert InternalPages(store.Contents(), clientURL, []) == map[];
      return true, content;
    }
    var found, pages := ResolveInternalURLs(store, clientURL, hrefs);
    if !found {
      return false, content;
    }
    if pages == map[] {
      return true, content;
    }
    var _ := RewriteAnchors(nodes, pages);
    if faults.render {
      return false, content;
    }
    out := Render(nodes);
    ok := true;
  }

  /** ArticleController.Create. An empty id stands for a generator that failed. */
  method CreateArticle(store: Store, item: Item, content: Forest, keywords: seq<string>,
                       aid: string) returns (r: Outcome)
    requires store.Consistent()
    modifies store`served, store`articles
    ensures store.Consistent() && old(store.served) <= store.served
    ensures r == Saved ==>
      && ActiveSource(old(store.Contents()), item.source) && aid != "" && aid !in old(store.articles)
        && !UrlTaken(old(store.articles), item.url)
      && store.articles == old(store.articles)[aid := NewArticle(item, content, keywords)]
    ensures r != Saved ==> store.articles == old(store.articles)
    ensures store.UpSince(old(store.served)) ==>
      r == if !ActiveSource(old(store.Contents()), item.source) then SourceInvalid
           else if aid == "" then Failed
           else if aid in old(store.articles) || UrlTaken(old(store.articles), item.url) then Duplicate else Saved
  {
    var source := store.FindSourceByID(item.source);
    match source
    case NoRows => return SourceInvalid;
    case Row(_) =>
      if aid == "" {
        return Failed;
      }
      var created := store.CreateArticle(aid, NewArticle(item, content, keywords));
      r := match created case Row(_) => Saved case UniqueViolation => Duplicate case _ => Failed;
    case _ => return Failed;
  }

  /** The rows of Assign, one insert each. */
  method CreateLinks(store: Store, aid: string, links: seq<Link>) returns (ok: bool)
    modifies store`served, store`links
    ensures old(store.served) <= store.served
    ensures store.UpSince(old(store.served)) ==> (ok <==> KeysFree(old(store.links), links))
    ensures ok ==> KeysFree(old(store.links), links) && store.links == InsertRows(old(store.links), aid, links)
  {
    for i := 0 to |links|
      invariant old(store.served) <= store.served
      invariant KeysFree(old(store.links), links[..i])
      invariant store.links == InsertRows(old(store.links), aid, links[..i])
    {
      InsertRowsFacts(old(store.links), aid, links[..i]);
      var created := store.CreateArticleOutboundLink(links[i].id, aid, links[i].href);
      if created.UniqueViolation? {
        assert !KeysFree(old(store.links), links) by {
          if links[i].id !in old(store.links) {
            var l :| l in links[..i] && l.id == links[i].id;
          }
        }
      }
      if !created.Row? {
        return false;
      }
      assert links[..i + 1] == links[..i] + [links[i]];
      assert links[..i + 1][..i] == links[..i];
      assert KeysFree(old(store.links), links[..i + 1]) by {
        forall k | 0 <= k < i ensures links[k].id != links[i].id {
          assert links[..i][k].id in InsertRows(old(store.links), aid, links[..i]);
        }
      }
    }
    assert links[..|links|] == links;
    ok := true;
  }

  /** The ids Assign gets to use: none when the HTML library fails, which it treats as it treats having
      too few. */
  function Numbers(ids: seq<string>, faults: Faults): seq<string> {
    if Faulty(faults) then [] else ids
  }

  /** The best-effort middle of persist: row ids for the hrefs, their rows, the body written back. When
      Assign fails the article keeps its body and gets no rows. */
  method StoreLinks(store: Store, aid: string, content: Forest, clientURL: string, given: seq<string>,
                    faults: Faults) returns (ok: bool)
    requires store.Consistent() && ActiveArticle(store.Contents(), aid) && store.articles[aid].body == content
    modifies store`served, store`articles, store`links
    ensures store.Consistent() && old(store.served) <= store.served
    ensures ok ==> store.Contents() == StoreRows(old(store.Contents()), aid, content, clientURL, Numbers(given, faults))
    ensures ok && |Collected(content)| <= |Numbers(given, faults)| ==>
      KeysFree(old(store.links), LinksFor(Collected(content), Numbers(given, faults), clientURL))
    ensures store.UpSince(old(store.served)) ==>
      (ok <==> (|Collected(content)| <= |Numbers(given, faults)| ==>
        KeysFree(old(store.links), LinksFor(Collected(content), Numbers(given, faults), clientURL))))
  {
    RewriteIdentity(content, map[]);
    assert store.articles == store.articles[aid := store.articles[aid].(body := content)];
    var numbered, rewritten, links := Assign(content, clientURL, given, faults);
    if !numbered {
      return true;
    }
    if links == [] {
      assert Collected(content) == [];
      return true;
    }
    ok := CreateLinks(store, aid, links);
    if !ok {
      return false;
    }
    var updated := store.UpdateArticleContent(aid, rewritten);
    ok := updated.Row?;
  }

  /** persist: the article, its rows, its body in id form, and the retro-linking, or nothing at all. */
  method PersistArticle(store: Store, item: Item, content: Forest, keywords: seq<string>, clientURL: string,
                        aid: string, given: seq<string>, faults: Faults)
    returns (r: Outcome)
    requires store.Consistent()
    modifies store
    ensures store.Consistent() && old(store.served) <= store.served
    ensures store.Contents() == if r == Saved
      then Persist(old(store.Contents()), item, content, keywords, clientURL, aid, Numbers(given, faults))
                                else old(store.Contents())
    ensures r == Saved ==>
      PersistOutcome(old(store.Contents()), item, content, clientURL, aid, Numbers(given, faults)) == Saved
    ensures store.UpSince(old(store.served)) ==>
      r == PersistOutcome(old(store.Contents()), item, content, clientURL, aid, Numbers(given, faults))
  {
    var before := store.Begin();
    r := CreateArticle(store, item, content, keywords, aid);
    if r != Saved {
      return;
    }
    var stored := StoreLinks(store, aid, content, clientURL, given, faults);
    if !stored {
      store.Rollback(before);
      return Failed;
    }
    var retargeted := store.RetargetArticleOutboundLinksByHref(item.url, InternalHref(aid));
    if !retargeted.Row? {
      store.Rollback(before);
      return Failed;
    }
  }

  /** One article of a batch with what the outside answers for it: the keywords (None: naming failed), an
      id and row ids, and how the HTML library fares in the url treatment and in Assign. */
  datatype Job = Job(item: Item, keywords: Option<seq<string>>, aid: string, given: seq<string>,
                     treating: Faults, assigning: Faults)

  ghost function DiscoverJob(db: Db, cfg: Config, j: Job, treated: bool): Db {
    Discover(db, cfg, j.item, j.keywords, treated, j.aid, Numbers(j.given, j.assigning))
  }

  /** processOne up to the judgement: true when the article was stored. Whatever fails, the tables end as
      they were, or as the whole pipeline leaves them, with or without the url treatment. */
  method ProcessOne(store: Store, cfg: Config, j: Job) returns (saved: bool)
    requires store.Consistent()
    modifies store
    ensures store.Consistent() && old(store.served) <= store.served
    ensures !saved ==> store.Contents() == old(store.Contents())
    ensures saved ==> exists treated :: store.Contents() == DiscoverJob(old(store.Contents()), cfg, j, treated)
    ensures store.UpSince(old(store.served)) ==>
      store.Contents() == DiscoverJob(old(store.Contents()), cfg, j, !Faulty(j.treating))
  {
    var known := AlreadyExists(store, j.item.url);
    if known != Some(false) {
      return false;
    }
    var body, treated := j.item.content, true;
    if cfg.clientURL != "" {
      treated, body := Treat(store, cfg.clientURL, j.item.content, j.treating);
    }
    var content := cfg.clean(body);
    if j.keywords.None? {
      return false;
    }
    var r := PersistArticle(store, j.item, content, j.keywords.value, cfg.clientURL, j.aid, j.given, j.assigning);
    saved := r == Saved;
    assert content == PreparedBody(old(store.Contents()), cfg, j.item.content, treated);
    if saved {
      assert store.Contents() == DiscoverJob(old(store.Contents()), cfg, j, treated);
    }
  }

  ghost function DiscoverAll(db: Db, cfg: Config, jobs: seq<Job>): Db {
    if jobs == [] then db
    else
      var j := jobs[|jobs| - 1];
      DiscoverJob(DiscoverAll(db, cfg, jobs[..|jobs| - 1]), cfg, j, !Faulty(j.treating))
  }

  /** Process with one worker: the articles in order, a failed one dropped. The context is not asked. */
  method ProcessSequentially(store: Store, cfg: Config, jobs: seq<Job>)
    requires store.Consistent()
    modifies store
    ensures store.Consistent()
    ensures store.UpSince(old(store.served)) ==> store.Contents() == DiscoverAll(old(store.Contents()), cfg, jobs)
  {
    for i := 0 to |jobs|
      invariant store.Consistent() && old(store.served) <= store.served
      invariant store.UpSince(old(store.served)) ==>
        store.Contents() == DiscoverAll(old(store.Contents()), cfg, jobs[..i])
    {
      assert jobs[..i + 1][..i] == jobs[..i];
      var _ := ProcessOne(store, cfg, jobs[i]);
    }
    assert jobs[..|jobs|] == jobs;
  }
}

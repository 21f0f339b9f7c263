/** What each transaction does to the content tables, row by row and column by column. */
module Effects {
  import opened Options
  import opened Html
  import opened Places
  import opened OutboundLinks
  import opened Tables
  import Keywords

  // ---------------------------------------------------------------- sources

  /** The row is there and marked neither inactive nor removed. */
  predicate LiveSource(db: Db, id: string) {
    id in db.sources && db.sources[id].status && !db.sources[id].removed
  }

  /** A new source is active; an id in use is refused. */
  lemma SourceAdded(db: Db, id: string)
    ensures var later := AddSource(db, id);
      && later.articles == db.articles && later.links == db.links
      && later.sources.Keys == db.sources.Keys + {id}
      && (forall s :: s in db.sources ==> later.sources[s] == db.sources[s])
      && (id !in db.sources ==> LiveSource(later, id))
  {
  }

  /** The cascade removes the source and no other. */
  lemma SourceRemoved(db: Db, id: string)
    ensures var later := SoftDeleteSource(db, id);
      && later.sources.Keys == db.sources.Keys
      && (forall s :: s in db.sources && s != id ==> later.sources[s] == db.sources[s])
      && (id in db.sources ==> later.sources[id].removed)
      && (id in db.sources && !db.sources[id].removed ==> !later.sources[id].status)
      && !ActiveSource(later, id) && forall s :: s != id ==> (ActiveSource(later, s) <==> ActiveSource(db, s))
  {
  }

  /** With it exactly its unremoved articles are removed; they keep all their other columns. */
  lemma ArticlesOfSourceRemoved(db: Db, id: string)
    ensures var later := SoftDeleteSource(db, id);
      && later.articles.Keys == db.articles.Keys
      && forall a :: a in db.articles ==>
           var gone := db.articles[a].source == id && !db.articles[a].removed;
           later.articles[a] == if gone then db.articles[a].(status := false, removed := true) else db.articles[a]
  {
  }

  /** x is an unremoved article of the source, and href its internal page. */
  predicate PageOfSource(db: Db, source: string, href: string, x: string) {
    x in db.articles && !db.articles[x].removed && db.articles[x].source == source && href == InternalHref(x)
  }

  /** And exactly the rows naming one of them fall back to its url. */
  lemma RowsOfSourceFallBack(db: Db, id: string, l: string)
    requires l in db.links
    ensures var later := SoftDeleteSource(db, id);
      && later.links.Keys == db.links.Keys && later.links[l].article == db.links[l].article
      && (forall x :: PageOfSource(db, id, db.links[l].href, x) ==> later.links[l].href == db.articles[x].url)
      && ((forall x :: !PageOfSource(db, id, db.links[l].href, x)) ==> later.links[l].href == db.links[l].href)
  {
    JoinMeans(db, id, db.links[l].href);
    if x :| JoinsArticle(db, id, db.links[l].href, x) {
      assert PageOfSource(db, id, db.links[l].href, x);
    }
    forall x | PageOfSource(db, id, db.links[l].href, x) ensures JoinsArticle(db, id, db.links[l].href, x) {
    }
  }

  // ---------------------------------------------------------------- one article removed

  /** The row is there and marked neither inactive nor removed. */
  predicate LiveArticle(db: Db, id: string) {
    id in db.articles && db.articles[id].status && !db.articles[id].removed
  }

  /** Deleting an active article marks it and takes exactly the rows naming it back to its url; deleting
      anything else does nothing. */
  lemma ArticleRemoved(db: Db, id: string)
    ensures var later := DeleteArticle(db, id);
      && later.sources == db.sources && later.articles.Keys == db.articles.Keys && later.links.Keys == db.links.Keys
      && (!LiveArticle(db, id) ==> later == db)
      && (LiveArticle(db, id) ==> later.articles[id] == db.articles[id].(status := false, removed := true))
      && (forall a :: a in db.articles && a != id ==> later.articles[a] == db.articles[a])
      && (forall l :: l in db.links ==>
            && later.links[l].article == db.links[l].article
            && later.links[l].href == if LiveArticle(db, id) && db.links[l].href == InternalHref(id)
                                      then db.articles[id].url else db.links[l].href)
  {
  }

  // ---------------------------------------------------------------- who owns a url

  /** The lookup answers the active article of the url, if there is one. */
  lemma OwnerMeans(db: Db, url: string)
    requires UniqueUrls(db)
    ensures forall x :: Owner(db, url) == Some(x) <==> LiveArticle(db, x) && db.articles[x].url == url
    ensures Owner(db, url).None? <==> forall x :: LiveArticle(db, x) ==> db.articles[x].url != url
  {
    forall x ensures Owner(db, url) == Some(x) <==> LiveArticle(db, x) && db.articles[x].url == url {
      if LiveArticle(db, x) && db.articles[x].url == url {
        OwnerIs(db, x, url);
      }
    }
  }

  // ---------------------------------------------------------------- url treatment

  /** An href has a page exactly when some anchor carries it and an active article is of that url; the page
      is that article's. */
  lemma PagesMean(db: Db, clientURL: string, content: Forest, h: string)
    requires UniqueUrls(db)
    ensures var pages := InternalPages(db, clientURL, Collected(content));
      && (h in pages <==>
            (exists p :: LinkAt(content, p, h)) && (exists x :: LiveArticle(db, x) && db.articles[x].url == h))
      && forall x :: h in pages && LiveArticle(db, x) && db.articles[x].url == h ==>
           pages[h] == clientURL + "/articles/" + x
  {
    CollectedExactly(content, h);
    OwnerMeans(db, h);
    if Owner(db, h).Some? {
      var x := Owner(db, h).value;
      assert LiveArticle(db, x) && db.articles[x].url == h;
    }
  }

  /** Url treatment puts the page into the anchors, at every place, and changes nothing else. */
  lemma TreatedEverywhere(db: Db, clientURL: string, content: Forest, p: Place)
    ensures SameButHrefs(Locate(content, p), Locate(TreatBody(db, clientURL, content), p),
                         InternalPages(db, clientURL, Collected(content)))
  {
    RewriteEverywhere(content, InternalPages(db, clientURL, Collected(content)), p);
  }

  /** The anchor to h becomes one to the page of h's article, or stays. */
  lemma LinkTreated(db: Db, clientURL: string, content: Forest, p: Place, h: string)
    requires UniqueUrls(db) && LinkAt(content, p, h)
    ensures var y := Locate(TreatBody(db, clientURL, content), p);
      && y.Elem? && y.tag == "a"
      && (forall x :: LiveArticle(db, x) && db.articles[x].url == h ==>
            IsFirstHref(y.attrs, clientURL + "/articles/" + x))
      && ((forall x :: LiveArticle(db, x) ==> db.articles[x].url != h) ==> IsFirstHref(y.attrs, h))
  {
    var pages := InternalPages(db, clientURL, Collected(content));
    var node := Locate(content, p);
    TreatedEverywhere(db, clientURL, content, p);
    PagesMean(db, clientURL, content, h);
    if h in pages {
      FirstHrefRenamed(node, Locate(TreatBody(db, clientURL, content), p), pages, h);
    } else {
      FirstHrefStays(node, Locate(TreatBody(db, clientURL, content), p), pages, h);
    }
  }

  lemma FirstHrefStays(x: Forest, y: Forest, m: Renaming, h: string)
    requires x.Elem? && x.tag == "a" && IsFirstHref(x.attrs, h) && h !in m && SameButHrefs(x, y, m)
    ensures IsFirstHref(y.attrs, h)
  {
    var i :| 0 <= i < |x.attrs| && x.attrs[i].key == "href" && x.attrs[i].val == h && NoneBefore(x.attrs, i);
    assert y.attrs[i].key == "href" && y.attrs[i].val == h;
    forall j | 0 <= j < i ensures y.attrs[j].key != "href" {
      assert x.attrs[j].key != "href";
    }
    assert NoneBefore(y.attrs, i);
  }

  // ---------------------------------------------------------------- persist

  /** No unremoved article is of this url. */
  predicate UrlFree(db: Db, url: string) {
    forall a :: a in db.articles && !db.articles[a].removed ==> db.articles[a].url != url
  }

  /** The first n ids are distinct and name no row yet. */
  predicate IdsFree(db: Db, ids: seq<string>, n: nat)
    requires n <= |ids|
  {
    (forall i :: 0 <= i < n ==> ids[i] !in db.links) && (forall i, j :: 0 <= i < j < n ==> ids[i] != ids[j])
  }

  lemma KeysFreeMeans(db: Db, hrefs: seq<string>, ids: seq<string>, clientURL: string)
    requires |hrefs| <= |ids|
    ensures KeysFree(db.links, LinksFor(hrefs, ids, clientURL)) <==> IdsFree(db, ids, |hrefs|)
  {
    var links := LinksFor(hrefs, ids, clientURL);
    assert forall i :: 0 <= i < |hrefs| ==> links[i].id == ids[i] && links[i] in links;
    if IdsFree(db, ids, |hrefs|) {
      forall l | l in links ensures l.id !in db.links {
        var i :| 0 <= i < |links| && links[i] == l;
      }
    }
  }

  /** A persist saves exactly an article of an active source, under a new id and a free url, whose rows, if
      it gets any, meet no row already there. */
  lemma SavesExactly(db: Db, item: Item, content: Forest, clientURL: string, aid: string, ids: seq<string>)
    ensures PersistOutcome(db, item, content, clientURL, aid, ids) == Saved <==>
      && LiveSource(db, item.source) && aid != "" && aid !in db.articles && UrlFree(db, item.url)
      && (|Collected(content)| <= |ids| ==> IdsFree(db, ids, |Collected(content)|))
  {
    if |Collected(content)| <= |ids| {
      KeysFreeMeans(db, Collected(content), ids, clientURL);
    }
  }

  /** What it saves: one article, every column of it, and no other article touched. */
  lemma ArticleSaved(db: Db, item: Item, content: Forest, keywords: seq<string>, clientURL: string, aid: string,
                     ids: seq<string>)
    ensures var later := Persist(db, item, content, keywords, clientURL, aid, ids);
      var body := if |Collected(content)| <= |ids| then AssignBody(content, ids) else content;
      if PersistOutcome(db, item, content, clientURL, aid, ids) != Saved then later == db
      else
        && later.sources == db.sources
        && later.articles == db.articles[aid :=
             Article(item.title, item.url, item.source, body, Keywords.NormalizeAll(keywords), true, false)]
  {
  }

  /** Where a row that would hold href points once the new article is there. */
  function Retargeted(item: Item, aid: string, href: string): string {
    if href == item.url then InternalHref(aid) else href
  }

  /** The rows: one new one per distinct href, the old ones kept, and all that hold the new article's url
      moved to its page. */
  lemma RowsSaved(db: Db, item: Item, content: Forest, keywords: seq<string>, clientURL: string, aid: string,
                  ids: seq<string>)
    requires PersistOutcome(db, item, content, clientURL, aid, ids) == Saved
    ensures var later := Persist(db, item, content, keywords, clientURL, aid, ids).links;
      var hrefs := Collected(content);
      && (forall l :: l in db.links ==>
            l in later && later[l] == OutboundRow(db.links[l].article, Retargeted(item, aid, db.links[l].href)))
      && (|hrefs| > |ids| ==> later.Keys == db.links.Keys)
      && (|hrefs| <= |ids| ==>
            && (forall i :: 0 <= i < |hrefs| ==>
                  && ids[i] in later
                  && later[ids[i]] == OutboundRow(aid, Retargeted(item, aid, ToStored(hrefs[i], clientURL))))
            && (forall l :: l in later && l !in db.links ==> l in ids[..|hrefs|]))
  {
    var hrefs := Collected(content);
    if |hrefs| <= |ids| {
      NewRowsSaved(db, item, content, keywords, clientURL, aid, ids);
    }
  }

  lemma NewRowsSaved(db: Db, item: Item, content: Forest, keywords: seq<string>, clientURL: string, aid: string,
                     ids: seq<string>)
    requires PersistOutcome(db, item, content, clientURL, aid, ids) == Saved && |Collected(content)| <= |ids|
    ensures var later := Persist(db, item, content, keywords, clientURL, aid, ids).links;
      var hrefs := Collected(content);
      && (forall l :: l in db.links ==>
            l in later && later[l] == OutboundRow(db.links[l].article, Retargeted(item, aid, db.links[l].href)))
      && (forall i :: 0 <= i < |hrefs| ==>
            && ids[i] in later
            && later[ids[i]] == OutboundRow(aid, Retargeted(item, aid, ToStored(hrefs[i], clientURL))))
      && (forall l :: l in later && l !in db.links ==> l in ids[..|hrefs|])
  {
    var hrefs := Collected(content);
    var inserted := InsertRows(db.links, aid, LinksFor(hrefs, ids, clientURL));
    assert KeysFree(db.links, LinksFor(hrefs, ids, clientURL));
    RowsInserted(db, aid, hrefs, ids, clientURL);
    assert Persist(db, item, content, keywords, clientURL, aid, ids).links
        == RetargetByHref(inserted, item.url, InternalHref(aid));
  }

  lemma RowsInserted(db: Db, aid: string, hrefs: seq<string>, ids: seq<string>, clientURL: string)
    requires |hrefs| <= |ids| && KeysFree(db.links, LinksFor(hrefs, ids, clientURL))
    ensures var inserted := InsertRows(db.links, aid, LinksFor(hrefs, ids, clientURL));
      && (forall l :: l in db.links ==> l in inserted && inserted[l] == db.links[l])
      && (forall i :: 0 <= i < |hrefs| ==>
            ids[i] in inserted && inserted[ids[i]] == OutboundRow(aid, ToStored(hrefs[i], clientURL)))
      && (forall l :: l in inserted && l !in db.links ==> l in ids[..|hrefs|])
  {
    var links := LinksFor(hrefs, ids, clientURL);
    var inserted := InsertRows(db.links, aid, links);
    InsertRowsFacts(db.links, aid, links);
    forall i | 0 <= i < |hrefs|
      ensures ids[i] in inserted && inserted[ids[i]] == OutboundRow(aid, ToStored(hrefs[i], clientURL))
    {
      assert links[i].id == ids[i];
    }
    forall l | l in inserted && l !in db.links ensures l in ids[..|hrefs|] {
      var k :| k in links && k.id == l;
      var i :| 0 <= i < |links| && links[i] == k;
      assert ids[..|hrefs|][i] == l;
    }
  }

  /** The pipeline leaves an item whose url is taken, or that was not named, alone. Any other it prepares,
      treated when there is a client and treatment worked, cleans, and persists. */
  lemma DiscoveredMeans(db: Db, cfg: Config, item: Item, keywords: Option<seq<string>>, treated: bool, aid: string,
                        ids: seq<string>)
    ensures var later := Discover(db, cfg, item, keywords, treated, aid, ids);
      && ((exists x :: LiveArticle(db, x) && db.articles[x].url == item.url) || keywords.None? ==> later == db)
      && ((forall x :: LiveArticle(db, x) ==> db.articles[x].url != item.url) && keywords.Some? ==>
            var body := if treated && cfg.clientURL != "" then TreatBody(db, cfg.clientURL, item.content)
                        else item.content;
            later == Persist(db, item, cfg.clean(body), keywords.value, cfg.clientURL, aid, ids))
  {
    if x :| LiveArticle(db, x) && db.articles[x].url == item.url {
      assert Owns(db, x, item.url);
    }
  }

  // ---------------------------------------------------------------- administrators

  lemma CreatedMeans(db: Db, item: Item, keywords: seq<string>, aid: string)
    ensures var later := AdminCreate(db, item, keywords, aid);
      var row := Article(item.title, item.url, item.source, item.content, Keywords.NormalizeAll(keywords), true, false);
      && later.sources == db.sources && later.links == db.links
      && later.articles == if LiveSource(db, item.source) && aid != "" && aid !in db.articles && UrlFree(db, item.url)
                           then db.articles[aid := row] else db.articles
  {
  }

  /** Another unremoved article is of this url. */
  predicate UrlTakenByOther(db: Db, aid: string, url: string) {
    exists a :: a in db.articles && a != aid && !db.articles[a].removed && db.articles[a].url == url
  }

  lemma UpdatedMeans(db: Db, aid: string, title: string, url: string, content: Forest, keywords: seq<string>)
    ensures var later := AdminUpdate(db, aid, title, url, content, keywords);
      && later.sources == db.sources && later.links == db.links
      && (!LiveArticle(db, aid) || UrlTakenByOther(db, aid, url) ==> later.articles == db.articles)
      && (LiveArticle(db, aid) && !UrlTakenByOther(db, aid, url) ==>
            later.articles == db.articles[aid :=
              Article(title, url, db.articles[aid].source, content, Keywords.NormalizeAll(keywords), true, false)])
  {
    if LiveArticle(db, aid) {
      var others := map a | a in db.articles && a != aid :: db.articles[a];
      assert UrlTaken(others, url) <==> UrlTakenByOther(db, aid, url) by {
        if UrlTakenByOther(db, aid, url) {
          var a :| a in db.articles && a != aid && !db.articles[a].removed && db.articles[a].url == url;
          assert Indexed(others, a);
        }
        if UrlTaken(others, url) {
          var a :| a in others && Indexed(others, a) && others[a].url == url;
          assert a in db.articles && a != aid && !db.articles[a].removed && db.articles[a].url == url;
        }
      }
    }
  }
}

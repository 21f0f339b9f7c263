/** The outbound rows as a view: while articles are processed one after another, every row holds what
    a lookup of its original url among the active articles would give now, and readers see it. */
module LinkView {
  import opened Options
  import opened Html
  import opened OutboundLinks
  import opened Tables
  import opened Effects
  import opened Removal
  import opened Runs
  import opened Soundness

  /** What the row of url should hold: the internal page of the active article of that url, or the url. */
  ghost function Target(db: Db, url: string): string {
    StoredLink(Some(db), url)
  }

  ghost predicate View(w: World) {
    forall l :: l in w.db.links && l in w.origin ==> w.db.links[l].href == Target(w.db, w.origin[l])
  }

  // ---------------------------------------------------------------- one persist

  lemma OwnersAfterInsert(db: Db, later: Db, aid: string, a: Article, url: string)
    requires UniqueUrls(db) && UniqueUrls(later)
    requires aid !in db.articles && later.articles == db.articles[aid := a] && a.status && !a.removed
    ensures Owner(later, url) == if url == a.url then Some(aid) else Owner(db, url)
  {
    if url == a.url {
      OwnerIs(later, aid, url);
    } else {
      OwnerSame(db, later, url);
    }
  }

  /** A persist gives its url to the new article and leaves every other url with its owner. */
  lemma OwnersAfterPersist(w: World, cfg: Config, d: Draft, url: string)
    requires Sound(w, cfg) && Persistable(w, cfg, d) && Saves(w, cfg, d)
    ensures Owner(PersistWorld(w, cfg, d).db, url) == if url == d.item.url then Some(d.aid) else Owner(w.db, url)
  {
    var later := PersistWorld(w, cfg, d).db;
    assert UniqueUrls(later) by { PersistKeepsSound(w, cfg, d); }
    SavedArticle(w, cfg, d);
    OwnersAfterInsert(w.db, later, d.aid, later.articles[d.aid], url);
  }

  /** Before a persist saves, nobody owns its url. */
  lemma UrlWasFree(w: World, cfg: Config, d: Draft)
    requires Saves(w, cfg, d)
    ensures Owner(w.db, d.item.url) == None
  {
    if Owner(w.db, d.item.url).Some? {
      assert Indexed(w.db.articles, Owner(w.db, d.item.url).value);
    }
  }

  lemma TargetsDiffer(db: Db, later: Db, url: string)
    requires TokenFree(url)
    ensures Target(db, url) == Target(later, url) <==> Owner(db, url) == Owner(later, url)
  {
    if Owner(db, url).Some? && Owner(later, url).Some? {
      InternalHrefInjective(Owner(db, url).value, Owner(later, url).value);
    } else if Owner(db, url).Some? {
      TokenFreeIsNotInternal(url, Owner(db, url).value);
    } else if Owner(later, url).Some? {
      TokenFreeIsNotInternal(url, Owner(later, url).value);
    }
  }

  lemma OldRowsFollow(w: World, cfg: Config, d: Draft, l: string)
    requires Sound(w, cfg) && View(w) && Persistable(w, cfg, d) && Saves(w, cfg, d)
    requires l in w.db.links
    ensures Relinked(d, w.db.links[l].href) == Target(PersistWorld(w, cfg, d).db, w.origin[l])
  {
    var u := w.origin[l];
    OwnersAfterPersist(w, cfg, d, u);
    UrlWasFree(w, cfg, d);
    if Owner(w.db, u).Some? {
      TokenFreeIsNotInternal(d.item.url, Owner(w.db, u).value);
    }
  }

  /** A new row is right exactly when its url still has the owner that treatment saw. */
  lemma NewRowFollows(w: World, cfg: Config, d: Draft, u: string)
    requires Sound(w, cfg) && Persistable(w, cfg, d) && Saves(w, cfg, d)
    requires d.seen.Some? ==> d.seen.value.articles.Keys <= w.db.articles.Keys
    requires TokenFree(u)
    ensures Relinked(d, StoredLink(d.seen, u)) == Target(PersistWorld(w, cfg, d).db, u)
       <==> OwnerSeen(d.seen, u) == Owner(w.db, u)
  {
    OwnersAfterPersist(w, cfg, d, u);
    UrlWasFree(w, cfg, d);
    if OwnerSeen(d.seen, u).Some? {
      var x := OwnerSeen(d.seen, u).value;
      TokenFreeIsNotInternal(d.item.url, x);
      TokenFreeIsNotInternal(u, x);
      InternalHrefInjective(x, d.aid);
      if Owner(w.db, u).Some? { InternalHrefInjective(x, Owner(w.db, u).value); }
    } else if Owner(w.db, u).Some? {
      TokenFreeIsNotInternal(u, Owner(w.db, u).value);
    }
  }

  ghost predicate RowHolds(w: World, l: string)
    requires l in w.db.links && l in w.origin
  {
    w.db.links[l].href == Target(w.db, w.origin[l])
  }

  lemma OldRowHolds(w: World, cfg: Config, d: Draft, l: string)
    requires Sound(w, cfg) && View(w) && Writes(w, cfg, d) && l in w.db.links
    ensures l in PersistWorld(w, cfg, d).db.links && l in PersistWorld(w, cfg, d).origin
    ensures RowHolds(PersistWorld(w, cfg, d), l)
  {
    WrittenRows(w, cfg, d);
    OriginalsFacts(d);
    assert l !in NewIdSet(d);
    OldRowsFollow(w, cfg, d, l);
  }

  lemma NewRowHolds(w: World, cfg: Config, d: Draft, i: nat)
    requires Sound(w, cfg) && Writes(w, cfg, d) && i < |Collected(d.text)|
    requires d.seen.Some? ==> d.seen.value.articles.Keys <= w.db.articles.Keys
    ensures d.ids[i] in PersistWorld(w, cfg, d).db.links && d.ids[i] in PersistWorld(w, cfg, d).origin
    ensures RowHolds(PersistWorld(w, cfg, d), d.ids[i])
       <==> OwnerSeen(d.seen, Collected(d.text)[i]) == Owner(w.db, Collected(d.text)[i])
  {
    var u := Collected(d.text)[i];
    assert TokenFree(u) by {
      CollectedFacts(d.text);
      assert u in Collected(d.text);
    }
    assert d.ids[i] in NewIdSet(d) && PersistWorld(w, cfg, d).origin[d.ids[i]] == u by {
      OriginalsFacts(d);
    }
    assert d.ids[i] in PersistWorld(w, cfg, d).db.links
      && PersistWorld(w, cfg, d).db.links[d.ids[i]].href == Relinked(d, StoredLink(d.seen, u)) by {
      WrittenRows(w, cfg, d);
    }
    NewRowFollows(w, cfg, d, u);
  }

  /** A persist keeps the view exactly when every link of the body still has, at that moment, the
      owner (or none) that url treatment saw. seen may be any earlier state of the tables, or None
      for a treatment that failed. */
  lemma PersistKeepsViewExactly(w: World, cfg: Config, d: Draft)
    requires Sound(w, cfg) && View(w) && Writes(w, cfg, d)
    requires d.seen.Some? ==> d.seen.value.articles.Keys <= w.db.articles.Keys
    ensures View(PersistWorld(w, cfg, d))
       <==> forall u :: u in Collected(d.text) ==> OwnerSeen(d.seen, u) == Owner(w.db, u)
  {
    var v := PersistWorld(w, cfg, d);
    var hrefs := Collected(d.text);
    if View(v) {
      forall u | u in hrefs ensures OwnerSeen(d.seen, u) == Owner(w.db, u) {
        var i :| 0 <= i < |hrefs| && hrefs[i] == u;
        NewRowHolds(w, cfg, d, i);
      }
    }
    if forall u :: u in hrefs ==> OwnerSeen(d.seen, u) == Owner(w.db, u) {
      forall l | l in v.db.links && l in v.origin ensures RowHolds(v, l) {
        if l in w.db.links {
          OldRowHolds(w, cfg, d, l);
        } else {
          assert l in NewIdSet(d) by { WrittenRows(w, cfg, d); }
          var i :| 0 <= i < |hrefs| && d.ids[i] == l;
          NewRowHolds(w, cfg, d, i);
        }
      }
    }
  }

  /** Without rows of its own (Assign failed) a persist keeps the view. */
  lemma UnassignedKeepsView(w: World, cfg: Config, d: Draft)
    requires Sound(w, cfg) && View(w) && Persistable(w, cfg, d) && !Assigned(d)
    ensures View(PersistWorld(w, cfg, d))
  {
    if Saves(w, cfg, d) {
      TreatedHrefs(d.seen, cfg.clientURL, d.text);
      forall l | l in w.db.links
        ensures PersistWorld(w, cfg, d).db.links[l].href == Target(PersistWorld(w, cfg, d).db, w.origin[l])
      {
        OldRowsFollow(w, cfg, d, l);
      }
    }
  }

  // ---------------------------------------------------------------- removals

  lemma OwnersAfterRemoveAll(db: Db, ids: set<string>, url: string)
    requires UniqueUrls(db) && StatusInSync(db) && ids <= db.articles.Keys
    ensures Owner(RemoveAll(db, ids), url)
         == if Owner(db, url).Some? && Owner(db, url).value in ids then None else Owner(db, url)
  {
    var later := RemoveAll(db, ids);
    assert UniqueUrls(later) by {
      forall a, b | Indexed(later.articles, a) && Indexed(later.articles, b)
        && later.articles[a].url == later.articles[b].url
        ensures a == b
      {
        assert Indexed(db.articles, a) && Indexed(db.articles, b);
      }
    }
    if Owner(later, url).Some? {
      var x := Owner(later, url).value;
      assert Owns(db, x, url);
      OwnerIs(db, x, url);
    } else if Owner(db, url).Some? {
      var x := Owner(db, url).value;
      if x !in ids { assert Owns(later, x, url); }
    }
  }

  lemma RemoveAllKeepsView(w: World, cfg: Config, ids: set<string>)
    requires Sound(w, cfg) && View(w) && ids <= w.db.articles.Keys
    ensures View(w.(db := RemoveAll(w.db, ids)))
  {
    var later := RemoveAll(w.db, ids);
    forall l | l in later.links ensures later.links[l].href == Target(later, w.origin[l]) {
      var u := w.origin[l];
      OwnersAfterRemoveAll(w.db, ids, u);
      NamesMeans(w.db.links[l].href, ids);
      if Owner(w.db, u).Some? {
        var x := Owner(w.db, u).value;
        InternalHrefSuffix(x);
      } else if Names(u, ids) {
        TokenFreeIsNotInternal(u, u[|InternalHrefPrefix()|..]);
      }
    }
  }

  lemma InternalHrefSuffix(id: string)
    ensures InternalHref(id)[|InternalHrefPrefix()|..] == id
    ensures InternalHrefPrefix() <= InternalHref(id)
  {
  }

  // ---------------------------------------------------------------- runs

  /** The steps the view is meant for: the pipeline with a working url treatment, and removals. An
      administrator's create and update do not retarget. */
  predicate KeepsView(step: Step) {
    match step
    case Process(_, _, treated, _, _) => treated
    case CreateByAdmin(_, _, _) => false
    case UpdateByAdmin(_, _, _, _, _) => false
    case _ => true
  }

  /** An article processed in one step: treatment saw the very tables it is persisted into. */
  lemma ProcessKeepsView(w: World, cfg: Config, step: Step)
    requires Sound(w, cfg) && View(w) && cfg.clientURL != ""
    requires step.Process? && step.treated && Admissible(w, cfg, step)
    ensures View(Next(w, cfg, step))
  {
    if Owner(w.db, step.item.url).None? && step.named.Some? {
      var d := Draft(Some(w.db), step.item, cfg.clean(step.item.content), step.named.value, step.aid, step.ids);
      if Writes(w, cfg, d) {
        PersistKeepsViewExactly(w, cfg, d);
      } else if !Assigned(d) {
        UnassignedKeepsView(w, cfg, d);
      }
    }
  }

  lemma StepKeepsView(w: World, cfg: Config, step: Step)
    requires Sound(w, cfg) && View(w) && cfg.clientURL != ""
    requires Admissible(w, cfg, step) && KeepsView(step)
    ensures View(Next(w, cfg, step))
  {
    match step
    case NewSource(id) =>
      SourcesDoNotMatter(w, AddSource(w.db, id).sources);
    case RemoveArticle(id) =>
      if ActiveArticle(w.db, id) {
        DeleteIsRemoveAll(w.db, id);
        RemoveAllKeepsView(w, cfg, {id});
      }
    case RemoveSource(id) =>
      CascadeIsRemoveAll(w.db, id);
      RemoveAllKeepsView(w, cfg, IndexedOf(w.db, id));
      RemovalKeepsSound(w, RemoveAll(w.db, IndexedOf(w.db, id)), cfg);
      SourcesDoNotMatter(w.(db := RemoveAll(w.db, IndexedOf(w.db, id))), RemoveSourceRow(w.db.sources, id));
    case Process(_, _, _, _, _) =>
      ProcessKeepsView(w, cfg, step);
  }

  lemma SourcesDoNotMatter(w: World, sources: map<string, Source>)
    requires View(w) && UniqueUrls(w.db)
    ensures View(w.(db := w.db.(sources := sources)))
  {
    var later := w.db.(sources := sources);
    forall url ensures Owner(later, url) == Owner(w.db, url) {
      OwnerSame(w.db, later, url);
    }
  }

  /** The view holds after every run of processing, article removal and source removal, self-links
      and urls that are removed and discovered again under a new id included. */
  lemma {:induction false} EveryRunKeepsView(cfg: Config, steps: seq<Step>)
    requires cfg.clientURL != "" && AdmissibleRun(EMPTY, cfg, steps)
    requires forall i :: 0 <= i < |steps| ==> KeepsView(steps[i])
    ensures View(Run(EMPTY, cfg, steps))
  {
    if steps == [] {
    } else {
      var front := steps[..|steps| - 1];
      EveryRunKeepsView(cfg, front);
      EveryRunSound(cfg, front);
      StepKeepsView(Run(EMPTY, cfg, front), cfg, steps[|steps| - 1]);
    }
  }

  /** That is: the row of url u holds the internal page of whatever active article is of that url, and u
      itself when none is. */
  lemma RowMeans(w: World, l: string)
    requires UniqueUrls(w.db) && View(w) && l in w.db.links && l in w.origin
    ensures var href, u := w.db.links[l].href, w.origin[l];
      && (forall x :: LiveArticle(w.db, x) && w.db.articles[x].url == u ==> href == InternalHref(x))
      && ((forall x :: LiveArticle(w.db, x) ==> w.db.articles[x].url != u) ==> href == u)
  {
    OwnerMeans(w.db, w.origin[l]);
  }

  lemma EveryRunRowMeans(cfg: Config, steps: seq<Step>, l: string)
    requires cfg.clientURL != "" && AdmissibleRun(EMPTY, cfg, steps)
    requires forall i :: 0 <= i < |steps| ==> KeepsView(steps[i])
    requires l in Run(EMPTY, cfg, steps).db.links
    ensures l in Run(EMPTY, cfg, steps).origin
    ensures var w := Run(EMPTY, cfg, steps);
      var href, u := w.db.links[l].href, w.origin[l];
      && (forall x :: LiveArticle(w.db, x) && w.db.articles[x].url == u ==> href == InternalHref(x))
      && ((forall x :: LiveArticle(w.db, x) ==> w.db.articles[x].url != u) ==> href == u)
  {
    EveryRunSound(cfg, steps);
    EveryRunKeepsView(cfg, steps);
    RowMeans(Run(EMPTY, cfg, steps), l);
  }
}

/** No outbound row ever names the internal page of a removed article, in runs that also contain
    administrators' creates and updates and failed url treatments. */
module NoDangling {
  import opened Options
  import opened Html
  import opened OutboundLinks
  import opened Tables
  import opened Removal
  import opened Runs
  import opened Soundness
  import Effects

  /** Whoever the row names is an active article. */
  ghost predicate RowLives(db: Db, l: string)
    requires l in db.links
  {
    forall id :: db.links[l].href == InternalHref(id) ==> ActiveArticle(db, id)
  }

  ghost predicate LinksLive(db: Db) {
    forall l :: l in db.links ==> RowLives(db, l)
  }

  /** A relinked row names the new article or whom it named before. */
  lemma RelinkedNames(d: Draft, href: string, id: string)
    requires TokenFree(d.item.url) && Relinked(d, href) == InternalHref(id)
    ensures id == d.aid || href == InternalHref(id)
  {
    InternalHrefInjective(d.aid, id);
  }

  /** The owners that treatment saw are still active. */
  ghost predicate OwnersAlive(db: Db, seen: Option<Db>, text: Forest) {
    forall u :: u in Collected(text) && OwnerSeen(seen, u).Some? ==> ActiveArticle(db, OwnerSeen(seen, u).value)
  }

  lemma NewRowLives(w: World, cfg: Config, d: Draft, i: nat)
    requires Sound(w, cfg) && Writes(w, cfg, d) && i < |Collected(d.text)|
    requires d.seen.Some? ==> d.seen.value.articles.Keys <= w.db.articles.Keys
    ensures d.ids[i] in PersistWorld(w, cfg, d).db.links
    ensures RowLives(PersistWorld(w, cfg, d).db, d.ids[i])
       <==> (OwnerSeen(d.seen, Collected(d.text)[i]).Some? ==>
         ActiveArticle(w.db, OwnerSeen(d.seen, Collected(d.text)[i]).value))
  {
    var u := Collected(d.text)[i];
    var v := PersistWorld(w, cfg, d);
    assert TokenFree(u) by {
      CollectedFacts(d.text);
      assert u in Collected(d.text);
    }
    assert d.ids[i] in v.db.links && v.db.links[d.ids[i]].href == Relinked(d, StoredLink(d.seen, u)) by {
      WrittenRows(w, cfg, d);
    }
    assert v.db.articles.Keys == w.db.articles.Keys + {d.aid} && ActiveArticle(v.db, d.aid)
      && (forall id :: id in w.db.articles ==> v.db.articles[id] == w.db.articles[id]) by {
      SavedArticle(w, cfg, d);
    }
    if OwnerSeen(d.seen, u).Some? {
      var x := OwnerSeen(d.seen, u).value;
      assert x in w.db.articles && x != d.aid;
      TokenFreeIsNotInternal(d.item.url, x);
      assert v.db.links[d.ids[i]].href == InternalHref(x);
      forall id | InternalHref(x) == InternalHref(id) ensures id == x {
        InternalHrefInjective(x, id);
      }
    } else {
      forall id | v.db.links[d.ids[i]].href == InternalHref(id) ensures ActiveArticle(v.db, id) {
        RelinkedNames(d, u, id);
        TokenFreeIsNotInternal(u, id);
      }
    }
  }

  lemma OldRowLives(w: World, cfg: Config, d: Draft, l: string)
    requires Sound(w, cfg) && LinksLive(w.db) && Persistable(w, cfg, d) && Saves(w, cfg, d)
    requires l in w.db.links && l in PersistWorld(w, cfg, d).db.links
    requires PersistWorld(w, cfg, d).db.links[l].href == Relinked(d, w.db.links[l].href)
    ensures RowLives(PersistWorld(w, cfg, d).db, l)
  {
    var v := PersistWorld(w, cfg, d);
    assert v.db.articles.Keys == w.db.articles.Keys + {d.aid} && ActiveArticle(v.db, d.aid)
      && (forall id :: ActiveArticle(w.db, id) ==> ActiveArticle(v.db, id)) by {
      SavedArticle(w, cfg, d);
    }
    forall id | Relinked(d, w.db.links[l].href) == InternalHref(id)
      ensures ActiveArticle(v.db, id)
    {
      RelinkedNames(d, w.db.links[l].href, id);
      assert RowLives(w.db, l);
    }
  }

  lemma RowLivesAfter(w: World, cfg: Config, d: Draft, l: string)
    requires Sound(w, cfg) && LinksLive(w.db) && Writes(w, cfg, d)
    requires d.seen.Some? ==> d.seen.value.articles.Keys <= w.db.articles.Keys
    requires OwnersAlive(w.db, d.seen, d.text)
    requires l in PersistWorld(w, cfg, d).db.links
    ensures RowLives(PersistWorld(w, cfg, d).db, l)
  {
    if l in w.db.links {
      assert PersistWorld(w, cfg, d).db.links[l].href == Relinked(d, w.db.links[l].href) by {
        WrittenRows(w, cfg, d);
      }
      OldRowLives(w, cfg, d, l);
    } else {
      assert l in NewIdSet(d) by {
        WrittenRows(w, cfg, d);
      }
      var i :| 0 <= i < |Collected(d.text)| && d.ids[i] == l;
      assert Collected(d.text)[i] in Collected(d.text);
      NewRowLives(w, cfg, d, i);
    }
  }

  /** A persist leaves no dangling row exactly when none of the articles its body was linked to has
      been removed since url treatment looked. */
  lemma PersistKeepsLinksLiveExactly(w: World, cfg: Config, d: Draft)
    requires Sound(w, cfg) && LinksLive(w.db) && Writes(w, cfg, d)
    requires d.seen.Some? ==> d.seen.value.articles.Keys <= w.db.articles.Keys
    ensures LinksLive(PersistWorld(w, cfg, d).db) <==> OwnersAlive(w.db, d.seen, d.text)
  {
    var v := PersistWorld(w, cfg, d);
    if LinksLive(v.db) {
      forall u | u in Collected(d.text) && OwnerSeen(d.seen, u).Some?
        ensures ActiveArticle(w.db, OwnerSeen(d.seen, u).value)
      {
        var i :| 0 <= i < |Collected(d.text)| && Collected(d.text)[i] == u;
        NewRowLives(w, cfg, d, i);
      }
    }
    if OwnersAlive(w.db, d.seen, d.text) {
      forall l | l in v.db.links ensures RowLives(v.db, l) {
        RowLivesAfter(w, cfg, d, l);
      }
    }
  }

  lemma ProcessKeepsLinksLive(w: World, cfg: Config, d: Draft)
    requires Sound(w, cfg) && LinksLive(w.db) && Persistable(w, cfg, d)
    requires d.seen.Some? ==> d.seen == Some(w.db)
    ensures LinksLive(PersistWorld(w, cfg, d).db)
  {
    if Writes(w, cfg, d) {
      PersistKeepsLinksLiveExactly(w, cfg, d);
    } else if Saves(w, cfg, d) {
      var v := PersistWorld(w, cfg, d);
      TreatedHrefs(d.seen, cfg.clientURL, d.text);
      forall l | l in v.db.links ensures RowLives(v.db, l) {
        OldRowLives(w, cfg, d, l);
      }
    }
  }

  lemma RemoveAllKeepsLinksLive(w: World, cfg: Config, ids: set<string>)
    requires Sound(w, cfg) && LinksLive(w.db) && ids <= w.db.articles.Keys
    ensures LinksLive(RemoveAll(w.db, ids))
  {
    var later := RemoveAll(w.db, ids);
    forall l, id | l in later.links && later.links[l].href == InternalHref(id)
      ensures ActiveArticle(later, id)
    {
      assert RowLives(w.db, l);
      NamesMeans(w.db.links[l].href, ids);
      if Names(w.db.links[l].href, ids) {
        var x := w.db.links[l].href[|InternalHrefPrefix()|..];
        TokenFreeIsNotInternal(w.db.articles[x].url, id);
      }
    }
  }

  lemma ActiveStays(db: Db, later: Db)
    requires LinksLive(db) && later.links == db.links
    requires forall id :: ActiveArticle(db, id) ==> ActiveArticle(later, id)
    ensures LinksLive(later)
  {
    forall l | l in later.links ensures RowLives(later, l) {
      assert RowLives(db, l);
    }
  }

  lemma ProcessStepKeepsLinksLive(w: World, cfg: Config, step: Step)
    requires Sound(w, cfg) && LinksLive(w.db) && Admissible(w, cfg, step) && step.Process?
    ensures LinksLive(Next(w, cfg, step).db)
  {
    var Process(item, named, treated, aid, ids) := step;
    if Owner(w.db, item.url).None? && named.Some? {
      ProcessKeepsLinksLive(w, cfg, Draft(if treated && cfg.clientURL != "" then Some(w.db) else None,
                                          item, cfg.clean(item.content), named.value, aid, ids));
    }
  }

  lemma RemovalStepKeepsLinksLive(w: World, cfg: Config, step: Step)
    requires Sound(w, cfg) && LinksLive(w.db) && (step.RemoveArticle? || step.RemoveSource?)
    ensures LinksLive(Next(w, cfg, step).db)
  {
    match step
    case RemoveArticle(id) =>
      if ActiveArticle(w.db, id) {
        DeleteIsRemoveAll(w.db, id);
        RemoveAllKeepsLinksLive(w, cfg, {id});
      }
    case RemoveSource(id) =>
      CascadeIsRemoveAll(w.db, id);
      RemoveAllKeepsLinksLive(w, cfg, IndexedOf(w.db, id));
  }

  lemma EditKeepsLinksLive(w: World, cfg: Config, step: Step)
    requires LinksLive(w.db) && (step.CreateByAdmin? || step.UpdateByAdmin?)
    ensures LinksLive(Next(w, cfg, step).db)
  {
    ActiveStays(w.db, NextDb(w.db, cfg, step));
  }

  lemma StepKeepsLinksLive(w: World, cfg: Config, step: Step)
    requires Sound(w, cfg) && LinksLive(w.db) && Admissible(w, cfg, step)
    ensures LinksLive(Next(w, cfg, step).db)
  {
    match step
    case NewSource(_) =>
      ActiveStays(w.db, NextDb(w.db, cfg, step));
    case RemoveArticle(_) =>
      RemovalStepKeepsLinksLive(w, cfg, step);
    case RemoveSource(_) =>
      RemovalStepKeepsLinksLive(w, cfg, step);
    case Process(_, _, _, _, _) =>
      ProcessStepKeepsLinksLive(w, cfg, step);
    case CreateByAdmin(_, _, _) =>
      EditKeepsLinksLive(w, cfg, step);
    case UpdateByAdmin(_, _, _, _, _) =>
      EditKeepsLinksLive(w, cfg, step);
  }

  /** After every run, of all the steps in any order, every internal link names an active article. */
  lemma {:induction false} EveryRunLinksLive(cfg: Config, steps: seq<Step>)
    requires AdmissibleRun(EMPTY, cfg, steps)
    ensures LinksLive(Run(EMPTY, cfg, steps).db)
  {
    if steps == [] {
    } else {
      var front := steps[..|steps| - 1];
      EveryRunLinksLive(cfg, front);
      EveryRunSound(cfg, front);
      StepKeepsLinksLive(Run(EMPTY, cfg, front), cfg, steps[|steps| - 1]);
    }
  }

  /** That is: whoever has the page that a row holds is there, active and not removed. */
  lemma EveryRunNamesLive(cfg: Config, steps: seq<Step>, l: string, x: string)
    requires AdmissibleRun(EMPTY, cfg, steps)
    requires l in Run(EMPTY, cfg, steps).db.links && Run(EMPTY, cfg, steps).db.links[l].href == InternalHref(x)
    ensures Effects.LiveArticle(Run(EMPTY, cfg, steps).db, x)
  {
    EveryRunLinksLive(cfg, steps);
    assert RowLives(Run(EMPTY, cfg, steps).db, l);
  }
}

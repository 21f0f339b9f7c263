/** Every step of every run keeps the tables sound, whatever the treatment of a body was made against. */
module Soundness {
  import opened Sequences
  import opened Options
  import opened Html
  import opened OutboundLinks
  import opened Tables
  import opened Removal
  import opened Runs

  // ---------------------------------------------------------------- removals

  /** What Sound reads is untouched by a change that only removes articles and moves rows. */
  ghost predicate OnlyRemoves(db: Db, later: Db) {
    && later.articles.Keys == db.articles.Keys
    && later.links.Keys == db.links.Keys
    && (forall a :: a in db.articles ==>
          later.articles[a] == db.articles[a] || later.articles[a] == Removed(db.articles[a]))
    && (forall l :: l in db.links ==> later.links[l].article == db.links[l].article)
  }

  lemma RemovalKeepsUnique(db: Db, later: Db)
    requires UniqueUrls(db) && OnlyRemoves(db, later)
    ensures UniqueUrls(later)
  {
    forall a, b | Indexed(later.articles, a) && Indexed(later.articles, b)
      && later.articles[a].url == later.articles[b].url
      ensures a == b
    {
      assert Indexed(db.articles, a) && Indexed(db.articles, b);
    }
  }

  lemma RemovalKeepsSound(w: World, later: Db, cfg: Config)
    requires Sound(w, cfg) && OnlyRemoves(w.db, later)
    ensures Sound(w.(db := later), cfg)
  {
    var v := w.(db := later);
    RemovalKeepsUnique(w.db, later);
    forall a | a in v.written ensures WrittenSound(v, a) {
      assert WrittenSound(w, a);
    }
    forall a | a in later.articles
      ensures IdLike(a) && Plain(later.articles[a].url, cfg.clientURL) && OwnRowsOnly(later, a)
    {
      assert OwnRowsOnly(w.db, a);
    }
  }

  lemma RemoveAllOnlyRemoves(db: Db, ids: set<string>)
    requires ids <= db.articles.Keys
    ensures OnlyRemoves(db, RemoveAll(db, ids))
  {
  }

  // ---------------------------------------------------------------- writing by the pipeline

  /** What a persist is given: new ids, a plain url and a plain clean tree. */
  ghost predicate Persistable(w: World, cfg: Config, d: Draft) {
    && Shown(d.seen) && (d.seen.Some? ==> cfg.clientURL != "")
    && Plain(d.item.url, cfg.clientURL) && PlainTree(d.text, cfg.clientURL)
    && NewIds(w.db, d.aid, d.ids)
  }

  /** A persist that stores the article together with its rows. */
  ghost predicate Writes(w: World, cfg: Config, d: Draft) {
    Persistable(w, cfg, d) && Saves(w, cfg, d) && Assigned(d)
  }

  function NewLinks(cfg: Config, content: Forest, ids: seq<string>): seq<Link>
    requires |Collected(content)| <= |ids|
  {
    LinksFor(Collected(content), ids, cfg.clientURL)
  }

  lemma NewLinksAre(cfg: Config, d: Draft)
    requires Shown(d.seen) && (d.seen.Some? ==> cfg.clientURL != "") && PlainTree(d.text, cfg.clientURL) && Assigned(d)
    ensures |Collected(Content(d.seen, cfg.clientURL, d.text))| == |Collected(d.text)|
    ensures forall i :: 0 <= i < |Collected(d.text)| ==>
      NewLinks(cfg, Content(d.seen, cfg.clientURL, d.text), d.ids)[i]
        == Link(d.ids[i], StoredLink(d.seen, Collected(d.text)[i]))
  {
    TreatedHrefs(d.seen, cfg.clientURL, d.text);
    forall i | 0 <= i < |Collected(d.text)|
      ensures NewLinks(cfg, Content(d.seen, cfg.clientURL, d.text), d.ids)[i]
        == Link(d.ids[i], StoredLink(d.seen, Collected(d.text)[i]))
    {
      StoredHref(d.seen, cfg.clientURL, d.text, Collected(d.text)[i]);
    }
  }

  function NewIdSet(d: Draft): set<string>
    requires Assigned(d)
  {
    set i | 0 <= i < |Collected(d.text)| :: d.ids[i]
  }

  /** Where a row that held href points after the retro-linking of d. */
  function Relinked(d: Draft, href: string): string {
    if href == d.item.url then InternalHref(d.aid) else href
  }

  /** Inserting rows and then retro-linking, row by row. */
  lemma InsertThenRelink(rows: Rows, d: Draft, links: seq<Link>)
    requires KeysFree(rows, links)
    ensures RetargetByHref(InsertRows(rows, d.aid, links), d.item.url, InternalHref(d.aid)).Keys
      == rows.Keys + set l | l in links :: l.id
    ensures forall r :: r in rows ==>
      RetargetByHref(InsertRows(rows, d.aid, links), d.item.url, InternalHref(d.aid))[r]
        == OutboundRow(rows[r].article, Relinked(d, rows[r].href))
    ensures forall i :: 0 <= i < |links| ==> links[i].id in InsertRows(rows, d.aid, links)
    ensures forall i :: 0 <= i < |links| ==>
      RetargetByHref(InsertRows(rows, d.aid, links), d.item.url, InternalHref(d.aid))[links[i].id]
        == OutboundRow(d.aid, Relinked(d, links[i].href))
  {
    InsertRowsFacts(rows, d.aid, links);
  }

  /** A persist that saves adds one active article and touches no other. */
  lemma SavedArticle(w: World, cfg: Config, d: Draft)
    requires Saves(w, cfg, d)
    ensures d.aid !in w.db.articles && d.aid in PersistWorld(w, cfg, d).db.articles
    ensures PersistWorld(w, cfg, d).db.articles == w.db.articles[d.aid := PersistWorld(w, cfg, d).db.articles[d.aid]]
    ensures PersistWorld(w, cfg, d).db.articles[d.aid]
      == NewArticle(d.item, PersistWorld(w, cfg, d).db.articles[d.aid].body, d.keywords)
  {
    SavedRow(w.db, d.item, Content(d.seen, cfg.clientURL, d.text), d.keywords, cfg.clientURL, d.aid, d.ids);
  }

  lemma SavedRow(db: Db, item: Item, content: Forest, keywords: seq<string>, clientURL: string, aid: string,
                 ids: seq<string>)
    requires PersistOutcome(db, item, content, clientURL, aid, ids) == Saved
    ensures aid !in db.articles
    ensures var later := Persist(db, item, content, keywords, clientURL, aid, ids).articles;
      aid in later && later[aid] == NewArticle(item, later[aid].body, keywords)
        && later == db.articles[aid := later[aid]]
  {
  }

  lemma WrittenArticle(w: World, cfg: Config, d: Draft)
    requires Writes(w, cfg, d)
    ensures PersistWorld(w, cfg, d).db.articles == w.db.articles[d.aid :=
      NewArticle(d.item, Rewrite(d.text, IdByHref(Collected(d.text), d.ids)), d.keywords)]
  {
    StoredBody(d.seen, cfg.clientURL, d.text, d.ids);
  }

  /** The rows after the persist: the old ones and one per distinct href, all retro-linked. */
  lemma WrittenRows(w: World, cfg: Config, d: Draft)
    requires Writes(w, cfg, d)
    ensures PersistWorld(w, cfg, d).db.links.Keys == w.db.links.Keys + NewIdSet(d)
    ensures forall l :: l in w.db.links ==>
      PersistWorld(w, cfg, d).db.links[l] == OutboundRow(w.db.links[l].article, Relinked(d, w.db.links[l].href))
    ensures forall i :: 0 <= i < |Collected(d.text)| ==> d.ids[i] in PersistWorld(w, cfg, d).db.links
    ensures forall i :: 0 <= i < |Collected(d.text)| ==>
      PersistWorld(w, cfg, d).db.links[d.ids[i]]
        == OutboundRow(d.aid, Relinked(d, StoredLink(d.seen, Collected(d.text)[i])))
  {
    NewLinksAre(cfg, d);
    var links := NewLinks(cfg, Content(d.seen, cfg.clientURL, d.text), d.ids);
    InsertThenRelink(w.db.links, d, links);
    assert PersistWorld(w, cfg, d).db.links
      == RetargetByHref(InsertRows(w.db.links, d.aid, links), d.item.url, InternalHref(d.aid));
    assert |links| == |Collected(d.text)|;
    LinkIds(d, links);
    forall i | 0 <= i < |links|
      ensures d.ids[i] in PersistWorld(w, cfg, d).db.links
      ensures PersistWorld(w, cfg, d).db.links[d.ids[i]]
        == OutboundRow(d.aid, Relinked(d, StoredLink(d.seen, Collected(d.text)[i])))
    {
      assert links[i] == Link(d.ids[i], StoredLink(d.seen, Collected(d.text)[i]));
    }
  }

  lemma LinkIds(d: Draft, links: seq<Link>)
    requires Assigned(d) && |links| == |Collected(d.text)|
    requires forall i :: 0 <= i < |links| ==> links[i].id == d.ids[i]
    ensures (set l | l in links :: l.id) == NewIdSet(d)
  {
    forall i | 0 <= i < |links| ensures d.ids[i] in set l | l in links :: l.id {
      assert links[i] in links;
    }
  }

  /** Originals reads the href of each new row back. */
  lemma OriginalsFacts(d: Draft)
    requires Distinct(d.ids) && Assigned(d)
    ensures Originals(Collected(d.text), d.ids).Keys == NewIdSet(d)
    ensures forall i :: 0 <= i < |Collected(d.text)| ==>
      d.ids[i] in Originals(Collected(d.text), d.ids)
        && Originals(Collected(d.text), d.ids)[d.ids[i]] == Collected(d.text)[i]
  {
    var hrefs, ids := Collected(d.text), d.ids[..|Collected(d.text)|];
    IdByHrefFacts(ids, hrefs);
    forall i | 0 <= i < |hrefs|
      ensures d.ids[i] in Originals(hrefs, d.ids) && Originals(hrefs, d.ids)[d.ids[i]] == hrefs[i]
    {
      assert ids[i] == d.ids[i];
    }
  }

  lemma InsertKeepsUnique(db: Db, aid: string, a: Article)
    requires UniqueUrls(db) && aid !in db.articles && !UrlTaken(db.articles, a.url)
    ensures UniqueUrls(db.(articles := db.articles[aid := a]))
  {
    var later := db.(articles := db.articles[aid := a]);
    forall x, y | Indexed(later.articles, x) && Indexed(later.articles, y)
      && later.articles[x].url == later.articles[y].url
      ensures x == y
    {
      assert x != aid ==> Indexed(db.articles, x);
      assert y != aid ==> Indexed(db.articles, y);
    }
  }

  /** u is a collected href and got the id of its place. */
  ghost predicate NumbersHref(d: Draft, u: string)
    requires Assigned(d) && u in IdByHref(Collected(d.text), d.ids)
  {
    var hrefs := Collected(d.text);
    exists i :: 0 <= i < |hrefs| && hrefs[i] == u && IdByHref(hrefs, d.ids)[u] == d.ids[i]
  }

  lemma NewWrittenSound(w: World, cfg: Config, d: Draft)
    requires Writes(w, cfg, d)
    ensures WrittenSound(PersistWorld(w, cfg, d), d.aid)
  {
    WrittenArticle(w, cfg, d);
    WrittenRows(w, cfg, d);
    CollectedFacts(d.text);
    IdByHrefFacts(Collected(d.text), d.ids);
    OriginalsFacts(d);
    forall u | u in IdByHref(Collected(d.text), d.ids)
      ensures NumbersHref(d, u)
    {
      var i :| 0 <= i < |Collected(d.text)| && Collected(d.text)[i] == u;
    }
  }

  lemma OldWrittenSound(w: World, cfg: Config, d: Draft, a: string)
    requires Sound(w, cfg) && Writes(w, cfg, d) && a in w.written
    ensures a in PersistWorld(w, cfg, d).written
    ensures WrittenSound(PersistWorld(w, cfg, d), a)
  {
    WrittenArticle(w, cfg, d);
    WrittenRows(w, cfg, d);
    OriginalsFacts(d);
    assert WrittenSound(w, a) && a != d.aid;
  }

  /** The hrefs of an assigned body: new ids, or what Assign did not collect. */
  lemma AssignedHrefs(text: Forest, ids: seq<string>, h: string)
    requires |Collected(text)| <= |ids|
    requires h in AllHrefs(Rewrite(text, IdByHref(Collected(text), ids)))
    ensures h in AllHrefs(text) || exists i :: 0 <= i < |Collected(text)| && ids[i] == h
  {
    var m := IdByHref(Collected(text), ids);
    CollectedFacts(text);
    IdByHrefFacts(Collected(text), ids);
    AllHrefsRewrite(text, m);
    var g :| g in AllHrefs(text) && Apply(m, g) == h;
    if g in m {
      var i :| 0 <= i < |Collected(text)| && Collected(text)[i] == g;
      assert ids[i] == h;
    }
  }

  lemma BodiesKeepToTheirRows(w: World, cfg: Config, d: Draft, a: string)
    requires Sound(w, cfg) && Writes(w, cfg, d)
    requires a in PersistWorld(w, cfg, d).db.articles
    ensures OwnRowsOnly(PersistWorld(w, cfg, d).db, a)
  {
    var v := PersistWorld(w, cfg, d);
    WrittenArticle(w, cfg, d);
    WrittenRows(w, cfg, d);
    if a == d.aid {
      forall h | h in AllHrefs(v.db.articles[a].body) && IdLike(h)
        ensures h in v.db.links && v.db.links[h].article == d.aid
      {
        AssignedHrefs(d.text, d.ids, h);
      }
    } else {
      assert OwnRowsOnly(w.db, a);
    }
  }

  lemma EachWrittenSound(w: World, cfg: Config, d: Draft, a: string)
    requires Sound(w, cfg) && Writes(w, cfg, d) && a in PersistWorld(w, cfg, d).written
    ensures WrittenSound(PersistWorld(w, cfg, d), a)
  {
    if a == d.aid {
      NewWrittenSound(w, cfg, d);
    } else {
      OldWrittenSound(w, cfg, d, a);
    }
  }

  lemma WriteKeepsUrls(w: World, cfg: Config, d: Draft)
    requires Sound(w, cfg) && Writes(w, cfg, d)
    ensures var db := PersistWorld(w, cfg, d).db;
      UniqueUrls(db) && StatusInSync(db)
        && (forall a :: a in db.articles ==> IdLike(a) && Plain(db.articles[a].url, cfg.clientURL))
  {
    var db := PersistWorld(w, cfg, d).db;
    SavedArticle(w, cfg, d);
    InsertKeepsUnique(w.db, d.aid, db.articles[d.aid]);
    assert UniqueUrls(db);
  }

  lemma WriteKeepsSound(w: World, cfg: Config, d: Draft)
    requires Sound(w, cfg) && Writes(w, cfg, d)
    ensures Sound(PersistWorld(w, cfg, d), cfg)
  {
    var v := PersistWorld(w, cfg, d);
    WriteKeepsUrls(w, cfg, d);
    assert v.origin.Keys == v.db.links.Keys == w.db.links.Keys + NewIdSet(d) by {
      WrittenRows(w, cfg, d);
      OriginalsFacts(d);
    }
    forall a | a in v.written ensures WrittenSound(v, a) {
      EachWrittenSound(w, cfg, d, a);
    }
    forall a | a in v.db.articles
      ensures IdLike(a) && Plain(v.db.articles[a].url, cfg.clientURL) && OwnRowsOnly(v.db, a)
    {
      BodiesKeepToTheirRows(w, cfg, d, a);
    }
    forall l | l in v.db.links ensures IdLike(l) && Plain(v.origin[l], cfg.clientURL) {
      OriginIsPlain(w, cfg, d, l);
    }
  }

  lemma OriginIsPlain(w: World, cfg: Config, d: Draft, l: string)
    requires Sound(w, cfg) && Writes(w, cfg, d) && l in w.db.links.Keys + NewIdSet(d)
    ensures IdLike(l) && l in PersistWorld(w, cfg, d).origin && Plain(PersistWorld(w, cfg, d).origin[l], cfg.clientURL)
  {
    OriginalsFacts(d);
    if l in NewIdSet(d) {
      CollectedFacts(d.text);
      var i :| 0 <= i < |Collected(d.text)| && d.ids[i] == l;
      assert Collected(d.text)[i] in Collected(d.text);
    }
  }

  // ---------------------------------------------------------------- articles without rows

  /** An article stored with its urls in place: by an administrator, or when Assign failed. */
  lemma PlainWriteKeepsSound(w: World, later: Db, cfg: Config, aid: string, a: Article)
    requires Sound(w, cfg)
    requires aid !in w.written && IdLike(aid) && Plain(a.url, cfg.clientURL) && (a.status <==> !a.removed)
    requires forall h :: h in AllHrefs(a.body) ==> !IdLike(h)
    requires later.articles == w.db.articles[aid := a] && UniqueUrls(later)
    requires later.links.Keys == w.db.links.Keys
    requires forall l :: l in w.db.links ==> later.links[l].article == w.db.links[l].article
    ensures Sound(w.(db := later), cfg)
  {
    var v := w.(db := later);
    forall b | b in v.written ensures WrittenSound(v, b) {
      assert WrittenSound(w, b);
    }
    forall b | b in later.articles
      ensures IdLike(b) && Plain(later.articles[b].url, cfg.clientURL) && OwnRowsOnly(later, b)
    {
      if b != aid { assert OwnRowsOnly(w.db, b); }
    }
  }

  lemma ContentHasNoIds(seen: Option<Db>, c: string, text: Forest)
    requires PlainTree(text, c)
    ensures forall h :: h in AllHrefs(Content(seen, c, text)) ==> !IdLike(h)
  {
    var p := Pages(seen, c, text);
    ContentIsRewrite(seen, c, text);
    AllHrefsRewrite(text, p);
    forall h | h in AllHrefs(Content(seen, c, text)) ensures !IdLike(h) {
      var g :| g in AllHrefs(text) && Apply(p, g) == h;
      if g in p { PageIsNotId(c, Owner(seen.value, g).value); }
    }
  }

  lemma PersistKeepsSound(w: World, cfg: Config, d: Draft)
    requires Sound(w, cfg) && Persistable(w, cfg, d)
    ensures Sound(PersistWorld(w, cfg, d), cfg)
  {
    if !Saves(w, cfg, d) {
    } else if Assigned(d) {
      WriteKeepsSound(w, cfg, d);
    } else {
      var v := PersistWorld(w, cfg, d);
      TreatedHrefs(d.seen, cfg.clientURL, d.text);
      ContentHasNoIds(d.seen, cfg.clientURL, d.text);
      InsertKeepsUnique(w.db, d.aid, v.db.articles[d.aid]);
      assert d.aid !in w.written;
      PlainWriteKeepsSound(w, v.db, cfg, d.aid, v.db.articles[d.aid]);
    }
  }

  lemma UpdateKeepsUnique(db: Db, id: string, title: string, url: string, content: Forest, keywords: seq<string>)
    requires UniqueUrls(db)
    ensures UniqueUrls(AdminUpdate(db, id, title, url, content, keywords))
  {
    var later := AdminUpdate(db, id, title, url, content, keywords);
    if later != db {
      var others := map a | a in db.articles && a != id :: db.articles[a];
      forall x, y | Indexed(later.articles, x) && Indexed(later.articles, y)
        && later.articles[x].url == later.articles[y].url
        ensures x == y
      {
        assert Indexed(db.articles, x) && Indexed(db.articles, y);
        if x != id { assert Indexed(others, x); }
        if y != id { assert Indexed(others, y); }
      }
    }
  }

  lemma UpdateKeepsSound(w: World, cfg: Config, step: Step)
    requires Sound(w, cfg) && step.UpdateByAdmin? && Admissible(w, cfg, step)
    ensures Sound(Next(w, cfg, step), cfg)
  {
    var later := NextDb(w.db, cfg, step);
    if later != w.db {
      var v := w.(written := w.written - {step.id});
      forall a | a in v.written ensures WrittenSound(v, a) {
        assert WrittenSound(w, a);
      }
      UpdateKeepsUnique(w.db, step.id, step.title, step.url, step.content, step.keywords);
      PlainWriteKeepsSound(v, later, cfg, step.id, later.articles[step.id]);
    }
  }

  // ---------------------------------------------------------------- every step, every run

  lemma StepKeepsSound(w: World, cfg: Config, step: Step)
    requires Sound(w, cfg) && Admissible(w, cfg, step)
    ensures Sound(Next(w, cfg, step), cfg)
  {
    match step
    case NewSource(id) =>
      RemovalKeepsSound(w, AddSource(w.db, id), cfg);
    case RemoveArticle(id) =>
      if ActiveArticle(w.db, id) {
        DeleteIsRemoveAll(w.db, id);
        RemoveAllOnlyRemoves(w.db, {id});
        RemovalKeepsSound(w, DeleteArticle(w.db, id), cfg);
      }
    case RemoveSource(id) =>
      CascadeIsRemoveAll(w.db, id);
      RemoveAllOnlyRemoves(w.db, IndexedOf(w.db, id));
      RemovalKeepsSound(w, SoftDeleteSource(w.db, id), cfg);
    case Process(item, named, treated, aid, ids) =>
      if Owner(w.db, item.url).None? && named.Some? {
        PersistKeepsSound(w, cfg, Draft(if treated && cfg.clientURL != "" then Some(w.db) else None,
                                        item, cfg.clean(item.content), named.value, aid, ids));
      }
    case CreateByAdmin(item, keywords, aid) =>
      var later := AdminCreate(w.db, item, keywords, aid);
      if later != w.db {
        InsertKeepsUnique(w.db, aid, later.articles[aid]);
        assert aid !in w.written;
        PlainWriteKeepsSound(w, later, cfg, aid, later.articles[aid]);
      }
    case UpdateByAdmin(_, _, _, _, _) =>
      UpdateKeepsSound(w, cfg, step);
  }

  /** The tables are sound after every run, of any steps in any order. */
  lemma {:induction false} EveryRunSound(cfg: Config, steps: seq<Step>)
    requires AdmissibleRun(EMPTY, cfg, steps)
    ensures Sound(Run(EMPTY, cfg, steps), cfg)
  {
    if steps == [] {
    } else {
      EveryRunSound(cfg, steps[..|steps| - 1]);
      StepKeepsSound(Run(EMPTY, cfg, steps[..|steps| - 1]), cfg, steps[|steps| - 1]);
    }
  }
}

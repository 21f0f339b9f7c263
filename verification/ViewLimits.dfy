/** Where the view ends: the transactions of one article are separate, and an administrator's create
    and update do not retarget. In each case, exactly when the view survives. */
module ViewLimits {
  import opened Options
  import opened Html
  import opened OutboundLinks
  import opened Tables
  import Removal
  import opened Runs
  import opened Soundness
  import opened LinkView
  import opened NoDangling

  // ---------------------------------------------------------------- administrators

  ghost predicate Linked(w: World, url: string) {
    exists l :: l in w.origin && w.origin[l] == url
  }

  /** Rows that stay as they are remain right exactly when no linked url changes owner. */
  lemma UnmovedRows(w: World, cfg: Config, later: Db)
    requires Sound(w, cfg) && View(w) && later.links == w.db.links
    ensures View(w.(db := later)) <==> forall u :: Linked(w, u) ==> Owner(later, u) == Owner(w.db, u)
  {
    forall l | l in w.db.links
      ensures w.db.links[l].href == Target(later, w.origin[l])
        <==> Owner(later, w.origin[l]) == Owner(w.db, w.origin[l])
    {
      TargetsDiffer(w.db, later, w.origin[l]);
    }
    if View(w.(db := later)) {
      forall u | Linked(w, u) ensures Owner(later, u) == Owner(w.db, u) {
        var l :| l in w.origin && w.origin[l] == u;
        assert l in w.db.links;
      }
    }
  }

  /** An article created by an administrator breaks the view exactly when some row links its url. */
  lemma AdminCreateKeepsViewExactly(w: World, cfg: Config, step: Step)
    requires Sound(w, cfg) && View(w) && step.CreateByAdmin? && Admissible(w, cfg, step)
    requires Next(w, cfg, step).db != w.db
    ensures View(Next(w, cfg, step)) <==> !Linked(w, step.item.url)
  {
    var later := Next(w, cfg, step).db;
    UnmovedRows(w, cfg, later);
    InsertKeepsUnique(w.db, step.aid, later.articles[step.aid]);
    OwnerIs(later, step.aid, step.item.url);
    assert Owner(w.db, step.item.url) != Some(step.aid);
    forall u | u != step.item.url ensures Owner(later, u) == Owner(w.db, u) {
      OwnerSame(w.db, later, u);
    }
  }

  /** An update breaks it exactly when it changes the url and some row links the old or the new one. */
  lemma AdminUpdateKeepsViewExactly(w: World, cfg: Config, step: Step)
    requires Sound(w, cfg) && View(w) && step.UpdateByAdmin? && Admissible(w, cfg, step)
    requires Next(w, cfg, step).db != w.db
    ensures step.id in w.db.articles
    ensures View(Next(w, cfg, step))
       <==> step.url == w.db.articles[step.id].url || (!Linked(w, step.url) && !Linked(w, w.db.articles[step.id].url))
  {
    var later := Next(w, cfg, step).db;
    var was := w.db.articles[step.id].url;
    UnmovedRows(w, cfg, later);
    UpdateKeepsUnique(w.db, step.id, step.title, step.url, step.content, step.keywords);
    forall u ensures Owner(later, u) == Owner(w.db, u) <==> step.url == was || (u != step.url && u != was) {
      OwnerAfterUpdate(w.db, later, step.id, u);
    }
  }

  /** Who owns u is the same unless the article took it or gave it up. */
  lemma OwnerAfterUpdate(db: Db, later: Db, id: string, u: string)
    requires UniqueUrls(db) && UniqueUrls(later) && ActiveArticle(db, id) && ActiveArticle(later, id)
    requires later.articles == db.articles[id := later.articles[id]]
    ensures Owner(later, u) == Owner(db, u)
       <==> later.articles[id].url == db.articles[id].url || (u != later.articles[id].url && u != db.articles[id].url)
  {
    OwnerIs(db, id, db.articles[id].url);
    OwnerIs(later, id, later.articles[id].url);
    if later.articles[id].url == db.articles[id].url || (u != later.articles[id].url && u != db.articles[id].url) {
      OwnerSame(db, later, u);
    }
  }

  // ---------------------------------------------------------------- separate transactions

  /** Article a is treated, article b (which a links) is persisted, a is persisted: a's link to b
      stays external, so the view is lost. */
  lemma TreatPersistPersistLosesView(w: World, cfg: Config, a: Draft, b: Draft)
    requires Sound(w, cfg) && View(w) && a.seen == Some(w.db)
    requires Writes(w, cfg, b) && b.seen == Some(w.db)
    requires Writes(PersistWorld(w, cfg, b), cfg, a)
    requires b.item.url in Collected(a.text)
    ensures !View(PersistWorld(PersistWorld(w, cfg, b), cfg, a))
  {
    var mid := PersistWorld(w, cfg, b);
    UrlWasFree(w, cfg, b);
    OwnersAfterPersist(w, cfg, b, b.item.url);
    WriteKeepsSound(w, cfg, b);
    PersistKeepsViewExactly(w, cfg, b);
    if View(mid) {
      PersistKeepsViewExactly(mid, cfg, a);
    }
  }

  /** Article a is treated, an article that a links is removed, a is persisted: a row of a names a
      removed article. */
  lemma TreatRemovePersistDangles(w: World, cfg: Config, a: Draft, url: string)
    requires Sound(w, cfg) && LinksLive(w.db) && a.seen == Some(w.db)
    requires Owner(w.db, url).Some? && url in Collected(a.text)
    requires Writes(w.(db := DeleteArticle(w.db, Owner(w.db, url).value)), cfg, a)
    ensures !LinksLive(PersistWorld(w.(db := DeleteArticle(w.db, Owner(w.db, url).value)), cfg, a).db)
  {
    var x := Owner(w.db, url).value;
    var mid := w.(db := DeleteArticle(w.db, x));
    Removal.DeleteIsRemoveAll(w.db, x);
    RemovalKeepsSound(w, mid.db, cfg);
    RemoveAllKeepsLinksLive(w, cfg, {x});
    PersistKeepsLinksLiveExactly(mid, cfg, a);
  }

  // ---------------------------------------------------------------- such traces

  const ONE_SOURCE := EMPTY.(db := AddSource(EMPTY.db, "s"))

  /** A client, the urls of two articles, another url, and ids for both articles and for a row. */
  datatype Case = Case(client: string, u: string, v: string, other: string, uId: string, vId: string, rowId: string)

  ghost predicate Usable(k: Case) {
    && k.client != "" && k.v != "" && k.u != k.v && !IdLike(k.v) && Plain(k.u, k.client) && Plain(k.v, k.client)
    && k.other != k.u && k.other != k.v && Plain(k.other, k.client)
    && IdLike(k.uId) && IdLike(k.vId) && IdLike(k.rowId) && k.uId != k.vId
  }

  function Cfg(k: Case): Config {
    Config(k.client, (f: Forest) => f)
  }

  /** An anchor to v. */
  function LinkTo(v: string): Forest {
    Elem("a", [Attr("href", v)], Nil, Nil)
  }

  /** The article of v, without links. */
  function TargetDraft(k: Case): Draft {
    Draft(Some(ONE_SOURCE.db), Item("", k.v, "s", Nil), Nil, [], k.vId, [])
  }

  /** The article of u, which links v, treated against seen. */
  function LinkingDraft(k: Case, seen: Option<Db>): Draft {
    Draft(seen, Item("", k.u, "s", LinkTo(k.v)), LinkTo(k.v), [], k.uId, [k.rowId])
  }

  /** An id written with one hexadecimal digit. */
  function Uuid(c: char): string {
    seq(ID_LENGTH, i => if DashAt(i) then '-' else c)
  }

  lemma NoBraceIsTokenFree(url: string)
    requires '{' !in url
    ensures TokenFree(url)
  {
    if !TokenFree(url) {
      assert TOKEN[0] == '{';
      OccursChars(url, TOKEN, '{');
    }
  }

  lemma ExternalIsPlain(url: string, client: string, i: nat)
    requires '{' !in url && i < |url| && i < |client| && url[i] != client[i]
    ensures Plain(url, client)
  {
    NoBraceIsTokenFree(url);
  }

  lemma UuidIsId(c: char)
    requires '0' <= c <= '9'
    ensures IdLike(Uuid(c)) && Uuid(c)[0] == c
  {
  }

  lemma SomeCase() returns (k: Case)
    ensures Usable(k)
  {
    var client, host := "https://app.com", "https://news.com/";
    var u, v, other := host + "u", host + "v", host + "w";
    assert client[8] == 'a' && host[8] == 'n' && |host| == 17;
    assert u[17] == 'u' && v[17] == 'v' && other[17] == 'w';
    assert u[8] == 'n' && v[8] == 'n' && other[8] == 'n';
    ExternalIsPlain(u, client, 8);
    ExternalIsPlain(v, client, 8);
    ExternalIsPlain(other, client, 8);
    UuidIsId('1');
    UuidIsId('2');
    UuidIsId('3');
    k := Case(client, u, v, other, Uuid('1'), Uuid('2'), Uuid('3'));
  }

  lemma LinkHrefs(v: string)
    requires v != ""
    ensures AllHrefs(LinkTo(v)) == {v} && Collected(LinkTo(v)) == [v]
  {
    var attrs := [Attr("href", v)];
    assert attrs[0] in attrs;
    assert HrefValues(attrs) == {v};
    assert FirstHref(attrs) == v;
    assert AnchorHrefs(LinkTo(v)) == [v];
    assert Dedup([v], []) == Dedup([v][1..], [] + [v]) == [v];
  }

  lemma TargetIsWritten(k: Case)
    requires Usable(k)
    ensures Writes(ONE_SOURCE, Cfg(k), TargetDraft(k))
    ensures var db := PersistWorld(ONE_SOURCE, Cfg(k), TargetDraft(k)).db;
      db.articles.Keys == {k.vId} && Owns(db, k.vId, k.v) && db.links == map[] && db.sources == ONE_SOURCE.db.sources
  {
    assert Collected(Nil) == [];
    assert Content(TargetDraft(k).seen, k.client, Nil) == Nil;
    assert PlainTree(Nil, k.client);
    assert KeysFree(ONE_SOURCE.db.links, LinksFor([], [], k.client));
    WrittenArticle(ONE_SOURCE, Cfg(k), TargetDraft(k));
    WrittenRows(ONE_SOURCE, Cfg(k), TargetDraft(k));
  }

  /** The article of u can be written wherever its ids and its url are free, whatever tables it was
      treated against. */
  lemma LinkingIsWritten(k: Case, w: World, seen: Option<Db>)
    requires Usable(k) && Shown(seen)
    requires ActiveSource(w.db, "s") && w.db.links == map[] && k.uId !in w.db.articles
    requires forall a :: a in w.db.articles ==> w.db.articles[a].url != k.u
    ensures Writes(w, Cfg(k), LinkingDraft(k, seen))
  {
    var d := LinkingDraft(k, seen);
    LinkHrefs(k.v);
    assert NewIds(w.db, d.aid, d.ids);
    NewLinksAre(Cfg(k), d);
    assert KeysFree(w.db.links, NewLinks(Cfg(k), Content(seen, k.client, d.text), d.ids));
    assert !UrlTaken(w.db.articles, k.u);
  }

  lemma OneSourceIsSound(cfg: Config)
    ensures Sound(ONE_SOURCE, cfg) && View(ONE_SOURCE) && LinksLive(ONE_SOURCE.db)
  {
  }

  /** From one source and no articles, u (which links v) and v are both treated, v is stored, then u. */
  lemma ViewIsLostSomewhere()
    ensures exists w: World, cfg: Config, a: Draft, b: Draft ::
      && Sound(w, cfg) && View(w) && a.seen == Some(w.db) && b.seen == Some(w.db)
      && Writes(w, cfg, b) && Writes(PersistWorld(w, cfg, b), cfg, a)
      && !View(PersistWorld(PersistWorld(w, cfg, b), cfg, a))
  {
    var k := SomeCase();
    OneSourceIsSound(Cfg(k));
    TargetIsWritten(k);
    LinkHrefs(k.v);
    LinkingIsWritten(k, PersistWorld(ONE_SOURCE, Cfg(k), TargetDraft(k)), Some(ONE_SOURCE.db));
    TreatPersistPersistLosesView(ONE_SOURCE, Cfg(k), LinkingDraft(k, Some(ONE_SOURCE.db)), TargetDraft(k));
  }

  /** v is stored, u (which links v) is treated, v is removed, u is stored. */
  lemma LinkDanglesSomewhere()
    ensures exists w: World, cfg: Config, a: Draft, x: string ::
      && Sound(w, cfg) && LinksLive(w.db) && a.seen == Some(w.db) && ActiveArticle(w.db, x)
      && Writes(w.(db := DeleteArticle(w.db, x)), cfg, a)
      && !LinksLive(PersistWorld(w.(db := DeleteArticle(w.db, x)), cfg, a).db)
  {
    var k := SomeCase();
    OneSourceIsSound(Cfg(k));
    TargetIsWritten(k);
    var w := PersistWorld(ONE_SOURCE, Cfg(k), TargetDraft(k));
    WriteKeepsSound(ONE_SOURCE, Cfg(k), TargetDraft(k));
    OwnerIs(w.db, k.vId, k.v);
    LinkHrefs(k.v);
    LinkingIsWritten(k, w.(db := DeleteArticle(w.db, k.vId)), Some(w.db));
    TreatRemovePersistDangles(w, Cfg(k), LinkingDraft(k, Some(w.db)), k.v);
  }
}

/** At the grain of transactions the view can be lost and links can dangle, but no link strays: treated
    against any earlier state of the tables, and stored after any other transactions, a body never
    gets a row that leads to an article of another url. */
module NoStraying {
  import opened Options
  import opened Html
  import opened OutboundLinks
  import opened Tables
  import opened Removal
  import opened Runs
  import opened Soundness
  import opened ViewLimits
  import Reader

  /** Store is the persist transaction alone; its draft was treated at some earlier moment of the run.
      Request is a transaction of another request. */
  datatype Move =
    | Request(step: Step)
    | Store(d: Draft)

  ghost function MoveWorld(w: World, cfg: Config, m: Move): World {
    match m
    case Request(step) => Next(w, cfg, step)
    case Store(d) => PersistWorld(w, cfg, d)
  }

  ghost function After(cfg: Config, moves: seq<Move>): World {
    if moves == [] then EMPTY else MoveWorld(After(cfg, moves[..|moves| - 1]), cfg, moves[|moves| - 1])
  }

  /** seen is what the tables were after some prefix of the run. */
  ghost predicate SeenDuring(cfg: Config, moves: seq<Move>, seen: Db) {
    exists k :: 0 <= k <= |moves| && seen == After(cfg, moves[..k]).db
  }

  /** What is assumed of the next move. An administrator's update may change anything but the url. */
  ghost predicate Fits(cfg: Config, before: seq<Move>, m: Move) {
    var w := After(cfg, before);
    match m
    case Request(step) =>
      && !step.Process? && Admissible(w, cfg, step)
      && (step.UpdateByAdmin? && step.id in w.db.articles ==> step.url == w.db.articles[step.id].url)
    case Store(d) =>
      && (d.seen.Some? ==> cfg.clientURL != "" && SeenDuring(cfg, before, d.seen.value))
      && Plain(d.item.url, cfg.clientURL) && PlainTree(d.text, cfg.clientURL)
      && NewIds(w.db, d.aid, d.ids)
  }

  ghost predicate Interleaved(cfg: Config, moves: seq<Move>) {
    moves == [] || (Interleaved(cfg, moves[..|moves| - 1]) && Fits(cfg, moves[..|moves| - 1], moves[|moves| - 1]))
  }

  /** Treated and stored at one moment, an item is the step it is elsewhere; so is any other request. */
  lemma AtOnce(w: World, cfg: Config, step: Step)
    ensures MoveWorld(w, cfg, Request(step)) == Next(w, cfg, step)
    ensures step.Process? && step.named.Some? && Owner(w.db, step.item.url).None? ==>
      var seen := if step.treated && cfg.clientURL != "" then Some(w.db) else None;
      var d := Draft(seen, step.item, cfg.clean(step.item.content), step.named.value, step.aid, step.ids);
      MoveWorld(w, cfg, Store(d)) == Next(w, cfg, step)
  {
  }

  ghost predicate UrlKept(w: World, step: Step) {
    step.UpdateByAdmin? && step.id in w.db.articles ==> step.url == w.db.articles[step.id].url
  }

  /** So every serial run without an update that changes a url is among these runs. */
  lemma {:induction false} SerialIsInterleaved(cfg: Config, steps: seq<Step>) returns (moves: seq<Move>)
    requires AdmissibleRun(EMPTY, cfg, steps)
    requires forall k :: 0 <= k < |steps| ==> UrlKept(Run(EMPTY, cfg, steps[..k]), steps[k])
    ensures Interleaved(cfg, moves) && After(cfg, moves) == Run(EMPTY, cfg, steps)
  {
    if steps == [] {
      moves := [];
    } else {
      var front, step := steps[..|steps| - 1], steps[|steps| - 1];
      forall k | 0 <= k < |front| ensures UrlKept(Run(EMPTY, cfg, front[..k]), front[k]) {
        assert front[..k] == steps[..k];
      }
      var before := SerialIsInterleaved(cfg, front);
      moves := StepAsMove(cfg, before, step);
    }
  }

  lemma StepAsMove(cfg: Config, before: seq<Move>, step: Step) returns (moves: seq<Move>)
    requires Interleaved(cfg, before)
    requires Admissible(After(cfg, before), cfg, step) && UrlKept(After(cfg, before), step)
    ensures Interleaved(cfg, moves) && After(cfg, moves) == Next(After(cfg, before), cfg, step)
  {
    var w := After(cfg, before);
    AtOnce(w, cfg, step);
    var m := Request(step);
    if step.Process? {
      if step.named.None? || Owner(w.db, step.item.url).Some? {
        return before;
      }
      var seen := if step.treated && cfg.clientURL != "" then Some(w.db) else None;
      m := Store(Draft(seen, step.item, cfg.clean(step.item.content), step.named.value, step.aid, step.ids));
      assert before[..|before|] == before;
      assert seen.Some? ==> SeenDuring(cfg, before, seen.value);
    }
    moves := before + [m];
    assert moves[..|before|] == before;
  }

  // ---------------------------------------------------------------- articles stay and keep their urls

  ghost predicate UrlsStay(db: Db, later: Db) {
    forall a :: a in db.articles ==> a in later.articles && later.articles[a].url == db.articles[a].url
  }

  lemma MoveKeepsUrls(w: World, cfg: Config, m: Move)
    requires m.Request? ==> !m.step.Process? && Admissible(w, cfg, m.step)
    requires m.Request? && m.step.UpdateByAdmin? && m.step.id in w.db.articles ==>
      m.step.url == w.db.articles[m.step.id].url
    ensures UrlsStay(w.db, MoveWorld(w, cfg, m).db)
  {
    if m.Store? && Saves(w, cfg, m.d) {
      SavedArticle(w, cfg, m.d);
    }
  }

  lemma {:induction false} RunKeepsUrls(cfg: Config, moves: seq<Move>, k: nat)
    requires Interleaved(cfg, moves) && k <= |moves|
    ensures UrlsStay(After(cfg, moves[..k]).db, After(cfg, moves).db)
  {
    if k == |moves| {
      assert moves[..k] == moves;
    } else {
      var front := moves[..|moves| - 1];
      assert front[..k] == moves[..k];
      RunKeepsUrls(cfg, front, k);
      MoveKeepsUrls(After(cfg, front), cfg, moves[|moves| - 1]);
    }
  }

  lemma SeenStays(cfg: Config, moves: seq<Move>, seen: Db)
    requires Interleaved(cfg, moves) && SeenDuring(cfg, moves, seen)
    ensures UrlsStay(seen, After(cfg, moves).db)
  {
    var k :| 0 <= k <= |moves| && seen == After(cfg, moves[..k]).db;
    RunKeepsUrls(cfg, moves, k);
  }

  // ---------------------------------------------------------------- soundness

  lemma {:induction false} PrefixInterleaved(cfg: Config, moves: seq<Move>, k: nat)
    requires Interleaved(cfg, moves) && k <= |moves|
    ensures Interleaved(cfg, moves[..k])
  {
    if k == |moves| {
      assert moves[..k] == moves;
    } else {
      assert moves[..|moves| - 1][..k] == moves[..k];
      PrefixInterleaved(cfg, moves[..|moves| - 1], k);
    }
  }

  lemma {:induction false} EveryInterleavingSound(cfg: Config, moves: seq<Move>)
    requires Interleaved(cfg, moves)
    ensures Sound(After(cfg, moves), cfg)
    decreases |moves|, 0
  {
    if moves == [] {
    } else {
      var front, m := moves[..|moves| - 1], moves[|moves| - 1];
      EveryInterleavingSound(cfg, front);
      match m
      case Request(step) => StepKeepsSound(After(cfg, front), cfg, step);
      case Store(d) =>
        StoreIsPersistable(cfg, front, d);
        PersistKeepsSound(After(cfg, front), cfg, d);
    }
  }

  lemma StoreIsPersistable(cfg: Config, before: seq<Move>, d: Draft)
    requires Interleaved(cfg, before) && Fits(cfg, before, Store(d))
    ensures Persistable(After(cfg, before), cfg, d)
    decreases |before|, 1
  {
    if d.seen.Some? {
      var k :| 0 <= k <= |before| && d.seen.value == After(cfg, before[..k]).db;
      PrefixInterleaved(cfg, before, k);
      EveryInterleavingSound(cfg, before[..k]);
    }
  }

  // ---------------------------------------------------------------- no row strays

  /** href is url, or the page of an article, present or removed, whose own url it is. */
  ghost predicate LeadsTo(db: Db, href: string, url: string) {
    href == url || exists x :: Wrote(db, x, url) && href == InternalHref(x)
  }

  predicate Wrote(db: Db, x: string, url: string) {
    x in db.articles && db.articles[x].url == url
  }

  ghost predicate NoneStrays(w: World) {
    forall l :: l in w.db.links && l in w.origin ==> LeadsTo(w.db, w.db.links[l].href, w.origin[l])
  }

  lemma LeadsOn(db: Db, later: Db, href: string, url: string)
    requires UrlsStay(db, later) && LeadsTo(db, href, url)
    ensures LeadsTo(later, href, url)
  {
    if href != url {
      var x :| Wrote(db, x, url) && href == InternalHref(x);
      assert Wrote(later, x, url);
    }
  }

  /** Retro-linking moves only rows that still hold the new article's url. */
  lemma RelinkedLeads(db: Db, later: Db, d: Draft, href: string, url: string)
    requires UrlsStay(db, later) && LeadsTo(db, href, url) && TokenFree(d.item.url) && Wrote(later, d.aid, d.item.url)
    ensures LeadsTo(later, Relinked(d, href), url)
  {
    LeadsOn(db, later, href, url);
    if href == d.item.url && href != url {
      var x :| Wrote(db, x, url) && href == InternalHref(x);
      TokenFreeIsNotInternal(href, x);
    }
  }

  /** What treatment saw is still an article of that url. */
  lemma StoredLeads(db: Db, seen: Option<Db>, u: string)
    requires seen.Some? ==> UrlsStay(seen.value, db)
    ensures LeadsTo(db, StoredLink(seen, u), u)
  {
    if OwnerSeen(seen, u).Some? {
      assert Wrote(db, OwnerSeen(seen, u).value, u);
    }
  }

  lemma StoreRowLeads(w: World, cfg: Config, d: Draft, l: string)
    requires Sound(w, cfg) && NoneStrays(w) && Writes(w, cfg, d)
    requires d.seen.Some? ==> UrlsStay(d.seen.value, w.db)
    requires l in w.db.links.Keys + NewIdSet(d)
    ensures var v := PersistWorld(w, cfg, d);
      l in v.db.links && l in v.origin && LeadsTo(v.db, v.db.links[l].href, v.origin[l])
  {
    var v := PersistWorld(w, cfg, d);
    assert UrlsStay(w.db, v.db) && Wrote(v.db, d.aid, d.item.url) by {
      SavedArticle(w, cfg, d);
    }
    WrittenRows(w, cfg, d);
    OriginalsFacts(d);
    if l in NewIdSet(d) {
      var i :| 0 <= i < |Collected(d.text)| && d.ids[i] == l;
      StoredLeads(w.db, d.seen, Collected(d.text)[i]);
      RelinkedLeads(w.db, v.db, d, StoredLink(d.seen, Collected(d.text)[i]), Collected(d.text)[i]);
    } else {
      RelinkedLeads(w.db, v.db, d, w.db.links[l].href, w.origin[l]);
    }
  }

  lemma UnassignedRowLeads(w: World, cfg: Config, d: Draft, l: string)
    requires Sound(w, cfg) && NoneStrays(w) && Persistable(w, cfg, d) && Saves(w, cfg, d) && !Assigned(d)
    requires l in w.db.links
    ensures var v := PersistWorld(w, cfg, d);
      v.origin == w.origin && v.db.links.Keys == w.db.links.Keys && LeadsTo(v.db, v.db.links[l].href, v.origin[l])
  {
    var v := PersistWorld(w, cfg, d);
    assert UrlsStay(w.db, v.db) && Wrote(v.db, d.aid, d.item.url) by {
      SavedArticle(w, cfg, d);
    }
    TreatedHrefs(d.seen, cfg.clientURL, d.text);
    RelinkedLeads(w.db, v.db, d, w.db.links[l].href, w.origin[l]);
  }

  lemma StoreKeepsRows(w: World, cfg: Config, d: Draft)
    requires Sound(w, cfg) && NoneStrays(w) && Persistable(w, cfg, d)
    requires d.seen.Some? ==> UrlsStay(d.seen.value, w.db)
    ensures NoneStrays(PersistWorld(w, cfg, d))
  {
    var v := PersistWorld(w, cfg, d);
    if Writes(w, cfg, d) {
      assert v.db.links.Keys == w.db.links.Keys + NewIdSet(d) by {
        WrittenRows(w, cfg, d);
      }
      forall l | l in v.db.links && l in v.origin ensures LeadsTo(v.db, v.db.links[l].href, v.origin[l]) {
        StoreRowLeads(w, cfg, d, l);
      }
    } else if Saves(w, cfg, d) {
      forall l | l in w.db.links
        ensures v.origin == w.origin && l in v.db.links && LeadsTo(v.db, v.db.links[l].href, v.origin[l]) {
        UnassignedRowLeads(w, cfg, d, l);
      }
      if l :| l in w.db.links {
        UnassignedRowLeads(w, cfg, d, l);
      }
    }
  }

  lemma RemoveAllKeepsRows(w: World, cfg: Config, ids: set<string>)
    requires Sound(w, cfg) && NoneStrays(w) && ids <= w.db.articles.Keys
    ensures NoneStrays(w.(db := RemoveAll(w.db, ids)))
  {
    var later := RemoveAll(w.db, ids);
    forall l | l in later.links ensures LeadsTo(later, later.links[l].href, w.origin[l]) {
      var href, u := w.db.links[l].href, w.origin[l];
      LeadsOn(w.db, later, href, u);
      NamesMeans(href, ids);
      if Names(href, ids) {
        var a :| a in ids && href == InternalHref(a);
        TokenFreeIsNotInternal(u, a);
        var x :| Wrote(w.db, x, u) && href == InternalHref(x);
        InternalHrefInjective(a, x);
        assert href[|InternalHrefPrefix()|..] == a;
      }
    }
  }

  lemma RequestKeepsRows(w: World, cfg: Config, step: Step)
    requires Sound(w, cfg) && NoneStrays(w) && Admissible(w, cfg, step) && !step.Process?
    requires step.UpdateByAdmin? && step.id in w.db.articles ==> step.url == w.db.articles[step.id].url
    ensures NoneStrays(Next(w, cfg, step))
  {
    match step
    case RemoveArticle(id) =>
      if ActiveArticle(w.db, id) {
        DeleteIsRemoveAll(w.db, id);
        RemoveAllKeepsRows(w, cfg, {id});
      }
    case RemoveSource(id) =>
      CascadeIsRemoveAll(w.db, id);
      RemoveAllKeepsRows(w, cfg, IndexedOf(w.db, id));
      RowsStay(w.(db := RemoveAll(w.db, IndexedOf(w.db, id))), Next(w, cfg, step));
    case _ =>
      MoveKeepsUrls(w, cfg, Request(step));
      RowsStay(w, Next(w, cfg, step));
  }

  lemma RowsStay(w: World, v: World)
    requires NoneStrays(w) && UrlsStay(w.db, v.db) && v.db.links == w.db.links && v.origin == w.origin
    ensures NoneStrays(v)
  {
    forall l | l in v.db.links && l in v.origin ensures LeadsTo(v.db, v.db.links[l].href, v.origin[l]) {
      LeadsOn(w.db, v.db, w.db.links[l].href, w.origin[l]);
    }
  }

  /** However treatment, persist, removals and administrators' requests interleave, each row holds its
      original url or the page of an article of exactly that url. */
  lemma {:induction false} NoneEverStrays(cfg: Config, moves: seq<Move>)
    requires Interleaved(cfg, moves)
    ensures NoneStrays(After(cfg, moves))
  {
    if moves == [] {
    } else {
      var front, m := moves[..|moves| - 1], moves[|moves| - 1];
      NoneEverStrays(cfg, front);
      EveryInterleavingSound(cfg, front);
      match m
      case Request(step) => RequestKeepsRows(After(cfg, front), cfg, step);
      case Store(d) =>
        StoreIsPersistable(cfg, front, d);
        if d.seen.Some? {
          SeenStays(cfg, front, d.seen.value);
        }
        StoreKeepsRows(After(cfg, front), cfg, d);
    }
  }

  /** That is: the row of url u holds u or the internal page of an article whose url is u. */
  lemma EveryInterleavingRowMeans(cfg: Config, moves: seq<Move>, l: string)
    requires Interleaved(cfg, moves) && l in After(cfg, moves).db.links
    ensures l in After(cfg, moves).origin
    ensures var w := After(cfg, moves);
      var href, u := w.db.links[l].href, w.origin[l];
      href == u || exists x :: x in w.db.articles && w.db.articles[x].url == u && href == InternalHref(x)
  {
    EveryInterleavingSound(cfg, moves);
    NoneEverStrays(cfg, moves);
  }

  // ---------------------------------------------------------------- a url that changes

  /** An administrator's update leads a link astray exactly when it changes the url of an article that
      some row names. */
  lemma UpdateKeepsRowsExactly(w: World, cfg: Config, step: Step)
    requires Sound(w, cfg) && NoneStrays(w) && step.UpdateByAdmin? && Admissible(w, cfg, step)
    requires Next(w, cfg, step).db != w.db
    ensures step.id in w.db.articles
    ensures NoneStrays(Next(w, cfg, step))
       <==> step.url == w.db.articles[step.id].url || forall l :: l in w.db.links ==>
         w.db.links[l].href != InternalHref(step.id)
  {
    var v := Next(w, cfg, step);
    if step.url == w.db.articles[step.id].url {
      RowsStay(w, v);
    } else {
      forall l | l in w.db.links
        ensures LeadsTo(v.db, v.db.links[l].href, v.origin[l]) <==> w.db.links[l].href != InternalHref(step.id)
      {
        RowAfterUpdate(w, cfg, step, l);
      }
    }
  }

  lemma RowAfterUpdate(w: World, cfg: Config, step: Step, l: string)
    requires Sound(w, cfg) && NoneStrays(w) && step.UpdateByAdmin? && Next(w, cfg, step).db != w.db && l in w.db.links
    requires step.id in w.db.articles && step.url != w.db.articles[step.id].url
    ensures var v := Next(w, cfg, step);
      l in v.db.links && l in v.origin
      && (LeadsTo(v.db, v.db.links[l].href, v.origin[l]) <==> w.db.links[l].href != InternalHref(step.id))
  {
    var v, href, u := Next(w, cfg, step), w.db.links[l].href, w.origin[l];
    if href == InternalHref(step.id) {
      TokenFreeIsNotInternal(u, step.id);
      var x :| Wrote(w.db, x, u) && href == InternalHref(x);
      InternalHrefInjective(x, step.id);
      forall y | href == InternalHref(y) ensures !Wrote(v.db, y, u) {
        InternalHrefInjective(y, step.id);
      }
    } else if href != u {
      var x :| Wrote(w.db, x, u) && href == InternalHref(x);
      assert Wrote(v.db, x, u);
    }
  }

  /** v is stored, and u, which names it. */
  ghost predicate Paired(k: Case, w: World) {
    && Owns(w.db, k.vId, k.v) && w.db.articles.Keys == {k.vId, k.uId} && w.db.articles[k.uId].url == k.u
    && k.rowId in w.db.links && w.db.links[k.rowId].href == InternalHref(k.vId)
  }

  lemma PairIsStored(k: Case, one: World)
    requires Usable(k) && Owns(one.db, k.vId, k.v) && one.db.articles.Keys == {k.vId} && UniqueUrls(one.db)
    requires Writes(one, Cfg(k), LinkingDraft(k, Some(one.db)))
    ensures Paired(k, PersistWorld(one, Cfg(k), LinkingDraft(k, Some(one.db))))
  {
    PairArticles(k, one);
    LinkingRow(k, one);
  }

  lemma PairArticles(k: Case, one: World)
    requires Usable(k) && Owns(one.db, k.vId, k.v) && one.db.articles.Keys == {k.vId}
    requires Saves(one, Cfg(k), LinkingDraft(k, Some(one.db)))
    ensures var w := PersistWorld(one, Cfg(k), LinkingDraft(k, Some(one.db)));
      Owns(w.db, k.vId, k.v) && w.db.articles.Keys == {k.vId, k.uId} && w.db.articles[k.uId].url == k.u
  {
    SavedArticle(one, Cfg(k), LinkingDraft(k, Some(one.db)));
  }

  lemma LinkingRow(k: Case, one: World)
    requires Usable(k) && Owns(one.db, k.vId, k.v) && UniqueUrls(one.db)
    requires Writes(one, Cfg(k), LinkingDraft(k, Some(one.db)))
    ensures var w := PersistWorld(one, Cfg(k), LinkingDraft(k, Some(one.db)));
      k.rowId in w.db.links && w.db.links[k.rowId].href == InternalHref(k.vId)
  {
    var d := LinkingDraft(k, Some(one.db));
    LinkHrefs(k.v);
    OwnerIs(one.db, k.vId, k.v);
    TokenFreeIsNotInternal(k.u, k.vId);
    WrittenRows(one, Cfg(k), d);
    assert d.ids[0] == k.rowId && Collected(d.text)[0] == k.v;
  }

  lemma PairIsUpdated(k: Case, w: World)
    requires Usable(k) && Paired(k, w)
    ensures var step := UpdateByAdmin(k.vId, "", k.other, Nil, []);
      && Admissible(w, Cfg(k), step)
      && k.vId in Next(w, Cfg(k), step).db.articles && Next(w, Cfg(k), step).db.articles[k.vId].url == k.other
  {
    assert !UrlTaken(map a | a in w.db.articles && a != k.vId :: w.db.articles[a], k.other);
  }

  /** v is stored, then u, whose row names it; then an administrator gives v another url. */
  lemma UpdateStraysSomewhere()
    ensures exists w: World, cfg: Config, step: Step ::
      Sound(w, cfg) && NoneStrays(w) && step.UpdateByAdmin? && Admissible(w, cfg, step)
        && !NoneStrays(Next(w, cfg, step))
  {
    var k := SomeCase();
    OneSourceIsSound(Cfg(k));
    TargetIsWritten(k);
    WriteKeepsSound(ONE_SOURCE, Cfg(k), TargetDraft(k));
    var one := PersistWorld(ONE_SOURCE, Cfg(k), TargetDraft(k));
    LinkingIsWritten(k, one, Some(one.db));
    var w := PersistWorld(one, Cfg(k), LinkingDraft(k, Some(one.db)));
    PairIsStored(k, one);
    WriteKeepsSound(one, Cfg(k), LinkingDraft(k, Some(one.db)));
    StoreKeepsRows(one, Cfg(k), LinkingDraft(k, Some(one.db)));
    PairIsUpdated(k, w);
    UpdateKeepsRowsExactly(w, Cfg(k), UpdateByAdmin(k.vId, "", k.other, Nil, []));
  }

  // ---------------------------------------------------------------- what readers see

  /** shown is url, or the client page of an article of that url. */
  ghost predicate ShowsAs(db: Db, clientURL: string, url: string, shown: string) {
    shown == url || exists x :: Wrote(db, x, url) && shown == clientURL + "/articles/" + x
  }

  lemma RowShows(w: World, cfg: Config, l: string)
    requires Sound(w, cfg) && NoneStrays(w) && l in w.db.links
    ensures ShowsAs(w.db, cfg.clientURL, w.origin[l], Expand(w.db.links[l].href, cfg.clientURL))
  {
    var href, u := w.db.links[l].href, w.origin[l];
    if href == u {
      DomainMove(u, "", cfg.clientURL);
    } else {
      var x :| Wrote(w.db, x, u) && href == InternalHref(x);
      IdIsTokenFree(x);
      ExpandInternal(x, cfg.clientURL);
    }
  }

  /** One map for a page serves each article as its own rows would, under every interleaving too. */
  lemma EveryInterleavingResolvesApart(cfg: Config, moves: seq<Move>, page: set<string>, a: string, links: seq<Link>,
                                       own: seq<Link>)
    requires Interleaved(cfg, moves)
    requires a in page && a in After(cfg, moves).db.articles
    requires Lists(After(cfg, moves).db, page, links) && Lists(After(cfg, moves).db, {a}, own)
    ensures var body := After(cfg, moves).db.articles[a].body;
      ResolveBody(body, ByID(links), cfg.clientURL) == ResolveBody(body, ByID(own), cfg.clientURL)
  {
    var w := After(cfg, moves);
    EveryInterleavingSound(cfg, moves);
    ListedByID(w.db, page, links);
    ListedByID(w.db, {a}, own);
    Reader.PageResolvesApart(w, cfg, page, a);
  }

  /** So a reader is served the clean tree with each href left alone or led to an article of that very
      url, whatever was interleaved. */
  lemma ReadersNeverStray(cfg: Config, moves: seq<Move>, a: string) returns (shown: Renaming)
    requires Interleaved(cfg, moves) && a in After(cfg, moves).written
    ensures var w := After(cfg, moves);
      && a in w.db.articles
      && ResolveBody(w.db.articles[a].body, HrefsOf(w.db, {a}), cfg.clientURL) == Rewrite(w.written[a].text, shown)
      && (forall u :: u in shown ==> ShowsAs(w.db, cfg.clientURL, u, shown[u]))
  {
    EveryInterleavingSound(cfg, moves);
    NoneEverStrays(cfg, moves);
    var w := After(cfg, moves);
    assert WrittenSound(w, a);
    var m := w.written[a].ids;
    shown := map u | u in m :: Expand(w.db.links[m[u]].href, cfg.clientURL);
    forall u | u in shown ensures ShowsAs(w.db, cfg.clientURL, u, shown[u]) {
      RowShows(w, cfg, m[u]);
    }
    RewriteCompose(w.written[a].text, m, Expanded(HrefsOf(w.db, {a}), cfg.clientURL), shown);
  }
}

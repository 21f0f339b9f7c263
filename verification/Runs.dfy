/** The content tables as a transition system. The world carries, beside the tables, the history that
    the properties speak about: the original url of every outbound row, and for every article written
    by the pipeline the clean tree it came from with the row id of each of its hrefs. */
module Runs {
  import opened Sequences
  import opened Options
  import Strings
  import opened Html
  import opened OutboundLinks
  import opened Tables
  import Removal

  datatype Written = Written(text: Forest, ids: Renaming)

  datatype World = World(db: Db, origin: map<string, string>, written: map<string, Written>)

  datatype Step =
    | NewSource(id: string)
    | Process(item: Item, named: Option<seq<string>>, treated: bool, aid: string, ids: seq<string>)
    | RemoveArticle(id: string)
    | RemoveSource(id: string)
    | CreateByAdmin(item: Item, keywords: seq<string>, aid: string)
    | UpdateByAdmin(id: string, title: string, url: string, content: Forest, keywords: seq<string>)

  const EMPTY := World(Db(map[], map[], map[]), map[], map[])

  // ---------------------------------------------------------------- what inputs are

  const ID_LENGTH := 36

  /** The places of the dashes in a UUID. */
  predicate DashAt(i: int) {
    i == 8 || i == 13 || i == 18 || i == 23
  }

  predicate IdChar(i: int, c: char) {
    if DashAt(i) then c == '-' else '0' <= c <= '9' || 'a' <= c <= 'f'
  }

  /** A UUID as the generator writes it. */
  predicate IdLike(s: string) {
    |s| == ID_LENGTH && forall i :: 0 <= i < |s| ==> IdChar(i, s[i])
  }

  /** An external url: not ours, and not spelling the token. */
  predicate Plain(url: string, clientURL: string) {
    TokenFree(url) && !Under(url, clientURL)
  }

  /** Embed treatment and sanitizing let the anchors of this body through unchanged. */
  ghost predicate LinksKept(db: Db, cfg: Config, content: Forest) {
    cfg.clean(TreatBody(db, cfg.clientURL, content)) == TreatBody(db, cfg.clientURL, cfg.clean(content))
  }

  ghost predicate PlainTree(f: Forest, clientURL: string) {
    forall h :: h in AllHrefs(f) ==> !IdLike(h) && Plain(h, clientURL)
  }

  /** Ids come from the generator: of id form, distinct, unused. */
  ghost predicate NewIds(db: Db, aid: string, ids: seq<string>) {
    && IdLike(aid) && aid !in db.articles
    && Distinct(ids)
    && forall id :: id in ids ==> IdLike(id) && id !in db.links
  }

  /** What is assumed of a step's inputs; nothing is assumed of the order of steps. */
  ghost predicate Admissible(w: World, cfg: Config, step: Step) {
    match step
    case NewSource(_) => true
    case Process(item, _, treated, aid, ids) =>
      && Plain(item.url, cfg.clientURL)
      && PlainTree(cfg.clean(item.content), cfg.clientURL)
      && (treated ==> LinksKept(w.db, cfg, item.content))
      && NewIds(w.db, aid, ids)
    case RemoveArticle(_) => true
    case RemoveSource(_) => true
    case CreateByAdmin(item, _, aid) =>
      && Plain(item.url, cfg.clientURL)
      && (forall h :: h in AllHrefs(item.content) ==> !IdLike(h))
      && IdLike(aid) && aid !in w.db.articles
    case UpdateByAdmin(_, _, url, content, _) =>
      && Plain(url, cfg.clientURL)
      && (forall h :: h in AllHrefs(content) ==> !IdLike(h))
  }

  // ---------------------------------------------------------------- steps

  ghost function NextDb(db: Db, cfg: Config, step: Step): Db {
    match step
    case NewSource(id) => AddSource(db, id)
    case Process(item, keywords, treated, aid, ids) => Discover(db, cfg, item, keywords, treated, aid, ids)
    case RemoveArticle(id) => DeleteArticle(db, id)
    case RemoveSource(id) => SoftDeleteSource(db, id)
    case CreateByAdmin(item, keywords, aid) => AdminCreate(db, item, keywords, aid)
    case UpdateByAdmin(id, title, url, content, keywords) => AdminUpdate(db, id, title, url, content, keywords)
  }

  /** One persist: the clean tree text, treated against the tables as they were in seen (None: not
      treated at all), is written as article aid with row ids from ids. */
  datatype Draft = Draft(seen: Option<Db>, item: Item, text: Forest, keywords: seq<string>,
                         aid: string, ids: seq<string>)

  ghost function Content(seen: Option<Db>, clientURL: string, text: Forest): Forest {
    if seen.None? then text else TreatBody(seen.value, clientURL, text)
  }

  ghost predicate Saves(w: World, cfg: Config, d: Draft) {
    PersistOutcome(w.db, d.item, Content(d.seen, cfg.clientURL, d.text), cfg.clientURL, d.aid, d.ids) == Saved
  }

  /** Assign had an id for every distinct href. */
  predicate Assigned(d: Draft) {
    |Collected(d.text)| <= |d.ids|
  }

  ghost function PersistWorld(w: World, cfg: Config, d: Draft): World {
    var db := Persist(w.db, d.item, Content(d.seen, cfg.clientURL, d.text), d.keywords, cfg.clientURL, d.aid, d.ids);
    if Saves(w, cfg, d) && Assigned(d) then
      World(db, w.origin + Originals(Collected(d.text), d.ids),
            w.written[d.aid := Written(d.text, IdByHref(Collected(d.text), d.ids))])
    else w.(db := db)
  }

  function Originals(hrefs: seq<string>, ids: seq<string>): map<string, string>
    requires |hrefs| <= |ids|
  {
    IdByHref(ids[..|hrefs|], hrefs)
  }

  ghost function Next(w: World, cfg: Config, step: Step): World {
    match step
    case Process(item, keywords, treated, aid, ids) =>
      if Owner(w.db, item.url).Some? || keywords.None? then w
      else PersistWorld(w, cfg, Draft(if treated && cfg.clientURL != "" then Some(w.db) else None,
                                      item, cfg.clean(item.content), keywords.value, aid, ids))
    case UpdateByAdmin(id, _, _, _, _) =>
      World(NextDb(w.db, cfg, step), w.origin,
            if NextDb(w.db, cfg, step) == w.db then w.written else w.written - {id})
    case _ => w.(db := NextDb(w.db, cfg, step))
  }

  ghost function Run(w: World, cfg: Config, steps: seq<Step>): World {
    if steps == [] then w else Next(Run(w, cfg, steps[..|steps| - 1]), cfg, steps[|steps| - 1])
  }

  ghost predicate AdmissibleRun(w: World, cfg: Config, steps: seq<Step>) {
    steps == [] ||
    (AdmissibleRun(w, cfg, steps[..|steps| - 1])
      && Admissible(Run(w, cfg, steps[..|steps| - 1]), cfg, steps[|steps| - 1]))
  }

  /** The tables of the world move as the transactions say. */
  lemma NextMatchesTables(w: World, cfg: Config, step: Step)
    requires Admissible(w, cfg, step)
    ensures Next(w, cfg, step).db == NextDb(w.db, cfg, step)
    ensures match step
            case NewSource(id) => Next(w, cfg, step).db == AddSource(w.db, id)
            case RemoveArticle(id) => Next(w, cfg, step).db == DeleteArticle(w.db, id)
            case RemoveSource(id) => Next(w, cfg, step).db == SoftDeleteSource(w.db, id)
            case CreateByAdmin(item, keywords, aid) => Next(w, cfg, step).db == AdminCreate(w.db, item, keywords, aid)
            case UpdateByAdmin(id, title, url, content, keywords) =>
              Next(w, cfg, step).db == AdminUpdate(w.db, id, title, url, content, keywords)
            case Process(item, named, treated, aid, ids) =>
              Next(w, cfg, step).db == Discover(w.db, cfg, item, named, treated, aid, ids)
  {
  }

  // ---------------------------------------------------------------- soundness of the tables

  ghost predicate WrittenSound(w: World, a: string)
    requires a in w.written
  {
    && a in w.db.articles
    && w.db.articles[a].body == Rewrite(w.written[a].text, w.written[a].ids)
    && w.written[a].ids.Keys == (set h | h in Collected(w.written[a].text))
    && (forall u :: u in w.written[a].ids ==>
          && w.written[a].ids[u] in w.db.links && w.written[a].ids[u] in w.origin
          && w.db.links[w.written[a].ids[u]].article == a
          && w.origin[w.written[a].ids[u]] == u)
    && (forall h :: h in AllHrefs(w.written[a].text) ==> !IdLike(h))
  }

  /** Every id in a body is a row of that very article. */
  ghost predicate OwnRowsOnly(db: Db, a: string)
    requires a in db.articles
  {
    forall h :: h in AllHrefs(db.articles[a].body) && IdLike(h) ==> h in db.links && db.links[h].article == a
  }

  ghost predicate Sound(w: World, cfg: Config) {
    && w.origin.Keys == w.db.links.Keys
    && Removal.StatusInSync(w.db)
    && UniqueUrls(w.db)
    && (forall a :: a in w.db.articles ==>
          IdLike(a) && Plain(w.db.articles[a].url, cfg.clientURL) && OwnRowsOnly(w.db, a))
    && (forall l :: l in w.db.links ==> IdLike(l) && Plain(w.origin[l], cfg.clientURL))
    && (forall a :: a in w.written ==> WrittenSound(w, a))
  }

  lemma {:induction false} OccursChars(s: string, t: string, c: char)
    requires t != "" && Strings.Occurs(s, t) && c in t
    ensures c in s
  {
    if t <= s {
      assert s == t + s[|t|..];
    } else {
      OccursChars(s[1..], t, c);
    }
  }

  /** An id never spells the token, so the stored form of an internal link expands to the client page. */
  lemma IdIsTokenFree(id: string)
    requires IdLike(id)
    ensures TokenFree("/articles/" + id)
  {
    if Strings.Occurs("/articles/" + id, TOKEN) {
      assert TOKEN[0] == '{';
      OccursChars("/articles/" + id, TOKEN, '{');
    }
  }

  lemma PageIsNotId(clientURL: string, id: string)
    ensures !IdLike(clientURL + "/articles/" + id)
  {
    assert (clientURL + "/articles/" + id)[|clientURL|] == '/';
  }

  lemma OwnerSame(db: Db, later: Db, url: string)
    requires UniqueUrls(db) && UniqueUrls(later)
    requires forall id :: Owns(db, id, url) <==> Owns(later, id, url)
    ensures Owner(db, url) == Owner(later, url)
  {
    if id :| Owns(db, id, url) {
      OwnerIs(db, id, url);
      OwnerIs(later, id, url);
    }
  }

  // ---------------------------------------------------------------- the treated body

  ghost predicate Shown(seen: Option<Db>) {
    seen.Some? ==> UniqueUrls(seen.value)
  }

  ghost function Pages(seen: Option<Db>, clientURL: string, text: Forest): Renaming {
    if seen.None? then map[] else InternalPages(seen.value, clientURL, Collected(text))
  }

  ghost function OwnerSeen(seen: Option<Db>, url: string): Option<string> {
    if seen.None? then None else Owner(seen.value, url)
  }

  lemma ContentIsRewrite(seen: Option<Db>, c: string, text: Forest)
    ensures Content(seen, c, text) == Rewrite(text, Pages(seen, c, text))
  {
    RewriteIdentity(text, map[]);
  }

  /** Two hrefs never end on the same page: one url_original has one owner. */
  lemma PagesInjective(seen: Option<Db>, c: string, text: Forest)
    requires Shown(seen) && c != "" && PlainTree(text, c)
    ensures InjectiveOn(Pages(seen, c, text), AnchorHrefs(text))
  {
    var p := Pages(seen, c, text);
    CollectedFacts(text);
    forall h, k | h in AnchorHrefs(text) && k in AnchorHrefs(text) && Apply(p, h) == Apply(p, k)
      ensures h == k
    {
      if h in p && k in p {
        var x, y := Owner(seen.value, h).value, Owner(seen.value, k).value;
        assert (c + "/articles/" + x)[|c + "/articles/"|..] == x;
        assert (c + "/articles/" + y)[|c + "/articles/"|..] == y;
        assert x == y;
      } else if h in p {
        PageIsUnder(c, Owner(seen.value, h).value);
      } else if k in p {
        PageIsUnder(c, Owner(seen.value, k).value);
      }
    }
  }

  lemma PageIsUnder(c: string, id: string)
    requires c != ""
    ensures Under(c + "/articles/" + id, c)
  {
    var page := c + "/articles/" + id;
    assert page == c + ("/articles/" + id);
    assert page[|c|..] == "/articles/" + id;
  }

  /** What is collected from the treated body are the collected hrefs of the clean one, each turned
      into its page when it has one. */
  lemma TreatedHrefs(seen: Option<Db>, c: string, text: Forest)
    requires Shown(seen) && (seen.Some? ==> c != "") && PlainTree(text, c)
    ensures Collected(Content(seen, c, text)) == MapAll(Pages(seen, c, text), Collected(text))
  {
    var p := Pages(seen, c, text);
    ContentIsRewrite(seen, c, text);
    CollectedFacts(text);
    if seen.Some? {
      PagesInjective(seen, c, text);
    }
    forall v | v in p.Values ensures v != "" {
      var h :| h in p && p[h] == v;
    }
    CollectedRewrite(text, p);
  }

  /** What is stored for the link u of a body treated against seen. */
  ghost function StoredLink(seen: Option<Db>, u: string): string {
    match OwnerSeen(seen, u)
    case Some(x) => InternalHref(x)
    case None => u
  }

  lemma StoredHref(seen: Option<Db>, c: string, text: Forest, u: string)
    requires (seen.Some? ==> c != "") && PlainTree(text, c) && u in Collected(text)
    ensures ToStored(Apply(Pages(seen, c, text), u), c) == StoredLink(seen, u)
  {
    CollectedFacts(text);
    if OwnerSeen(seen, u).Some? {
      InternalLinkForms(OwnerSeen(seen, u).value, c);
    }
  }

  /** Renaming hrefs and then numbering them is numbering them. */
  lemma NumberedAfter(hrefs: seq<string>, p: Renaming, ids: seq<string>, h: string)
    requires Distinct(hrefs) && Distinct(MapAll(p, hrefs)) && |hrefs| <= |ids|
    requires h in hrefs || (h !in p && h !in MapAll(p, hrefs))
    ensures Apply(IdByHref(MapAll(p, hrefs), ids), Apply(p, h)) == Apply(IdByHref(hrefs, ids), h)
  {
    IdByHrefFacts(hrefs, ids);
    IdByHrefFacts(MapAll(p, hrefs), ids);
    if h in hrefs {
      var i :| 0 <= i < |hrefs| && hrefs[i] == h;
      assert MapAll(p, hrefs)[i] == Apply(p, h);
    }
  }

  /** An href that is not collected has no page and is nobody's page. */
  lemma NotCollectedIsNoPage(seen: Option<Db>, c: string, text: Forest, h: string)
    requires (seen.Some? ==> c != "") && PlainTree(text, c) && h in AllHrefs(text) && h !in Collected(text)
    ensures h !in Pages(seen, c, text) && h !in MapAll(Pages(seen, c, text), Collected(text))
  {
    var p, hrefs := Pages(seen, c, text), Collected(text);
    forall i | 0 <= i < |hrefs| ensures MapAll(p, hrefs)[i] != h {
      if hrefs[i] in p {
        PageIsUnder(c, Owner(seen.value, hrefs[i]).value);
      }
    }
  }

  /** The stored body, seen from the clean tree: each collected href replaced by its row id. */
  lemma StoredBody(seen: Option<Db>, c: string, text: Forest, ids: seq<string>)
    requires Shown(seen) && (seen.Some? ==> c != "") && PlainTree(text, c)
    requires |Collected(text)| <= |ids|
    ensures |Collected(Content(seen, c, text))| == |Collected(text)|
    ensures AssignBody(Content(seen, c, text), ids) == Rewrite(text, IdByHref(Collected(text), ids))
  {
    var p, hrefs := Pages(seen, c, text), Collected(text);
    ContentIsRewrite(seen, c, text);
    TreatedHrefs(seen, c, text);
    assert Distinct(hrefs) && Distinct(MapAll(p, hrefs)) by {
      CollectedFacts(text);
      CollectedFacts(Content(seen, c, text));
    }
    var m, k := IdByHref(MapAll(p, hrefs), ids), IdByHref(hrefs, ids);
    forall h | h in AllHrefs(text)
      ensures Apply(m, Apply(p, h)) == Apply(k, h)
    {
      if h !in hrefs {
        NotCollectedIsNoPage(seen, c, text, h);
      }
      NumberedAfter(hrefs, p, ids, h);
    }
    RewriteCompose(text, p, m, k);
  }
}

/** The three content tables (sources, articles, article_outbound_links) as values, and what each SQL
    statement and each transaction makes of them. */
module Tables {
  import opened Options
  import opened Html
  import opened OutboundLinks
  import Keywords

  /** removed stands for removed_at IS NOT NULL; reads look at status as well. */
  datatype Source = Source(status: bool, removed: bool)

  datatype Article = Article(title: string, url: string, source: string, body: Forest,
                             keywords: seq<string>, status: bool, removed: bool)

  datatype OutboundRow = OutboundRow(article: string, href: string)

  type Rows = map<string, OutboundRow>

  datatype Db = Db(sources: map<string, Source>, articles: map<string, Article>, links: Rows)

  /** An item of a feed, before any treatment. */
  datatype Item = Item(title: string, url: string, source: string, content: Forest)

  // ---------------------------------------------------------------- what the queries see

  predicate ActiveSource(db: Db, id: string) {
    id in db.sources && db.sources[id].status && !db.sources[id].removed
  }

  predicate ActiveArticle(db: Db, id: string) {
    id in db.articles && db.articles[id].status && !db.articles[id].removed
  }

  /** The rows the partial unique index on url_original covers. */
  predicate Indexed(articles: map<string, Article>, id: string) {
    id in articles && !articles[id].removed
  }

  predicate UrlTaken(articles: map<string, Article>, url: string) {
    exists id :: id in articles && Indexed(articles, id) && articles[id].url == url
  }

  /** The schema constraint: no two indexed rows with one url_original. */
  ghost predicate UniqueUrls(db: Db) {
    forall a, b :: Indexed(db.articles, a) && Indexed(db.articles, b) && db.articles[a].url == db.articles[b].url ==>
      a == b
  }

  ghost predicate Owns(db: Db, id: string, url: string) {
    ActiveArticle(db, id) && db.articles[id].url == url
  }

  /** The active article whose url_original is url: the answer of FindArticleByURLOriginal. */
  ghost function Owner(db: Db, url: string): Option<string> {
    if exists id :: Owns(db, id, url) then
      var id :| Owns(db, id, url);
      Some(id)
    else None
  }

  lemma OwnerIs(db: Db, id: string, url: string)
    requires UniqueUrls(db) && Owns(db, id, url)
    ensures Owner(db, url) == Some(id)
  {
    var o := Owner(db, url).value;
    assert Indexed(db.articles, o) && Indexed(db.articles, id);
  }

  // ---------------------------------------------------------------- statements

  /** RetargetArticleOutboundLinksByHref. */
  function RetargetByHref(rows: Rows, oldHref: string, newHref: string): Rows {
    map l | l in rows :: if rows[l].href == oldHref then rows[l].(href := newHref) else rows[l]
  }

  /** The join condition l.href = prefix || a.id names at most one article: what follows the prefix. */
  predicate JoinsSource(db: Db, source: string, href: string) {
    && InternalHrefPrefix() <= href
    && Indexed(db.articles, href[|InternalHrefPrefix()|..])
    && db.articles[href[|InternalHrefPrefix()|..]].source == source
  }

  /** The SQL condition of the join, for one row and one article. */
  predicate JoinsArticle(db: Db, source: string, href: string, id: string) {
    Indexed(db.articles, id) && db.articles[id].source == source && href == InternalHref(id)
  }

  lemma JoinMeans(db: Db, source: string, href: string)
    ensures JoinsSource(db, source, href) <==> exists id :: JoinsArticle(db, source, href, id)
    ensures forall id :: JoinsArticle(db, source, href, id) ==> href[|InternalHrefPrefix()|..] == id
  {
    if InternalHrefPrefix() <= href {
      assert href == InternalHref(href[|InternalHrefPrefix()|..]);
    }
    if JoinsSource(db, source, href) {
      assert JoinsArticle(db, source, href, href[|InternalHrefPrefix()|..]);
    }
  }

  /** RetargetArticleOutboundLinksBySourceID: one statement for all articles of the source. */
  function RetargetBySource(db: Db, source: string): Rows {
    map l | l in db.links ::
      if JoinsSource(db, source, db.links[l].href)
      then db.links[l].(href := db.articles[db.links[l].href[|InternalHrefPrefix()|..]].url)
      else db.links[l]
  }

  function Removed(a: Article): Article {
    a.(status := false, removed := true)
  }

  /** SoftDeleteArticle. */
  function RemoveArticleRow(articles: map<string, Article>, id: string): map<string, Article> {
    if Indexed(articles, id) then articles[id := Removed(articles[id])] else articles
  }

  /** SoftDeleteArticlesBySourceID. */
  function RemoveArticleRowsOf(articles: map<string, Article>, source: string): map<string, Article> {
    map a | a in articles ::
      if articles[a].source == source && !articles[a].removed then Removed(articles[a]) else articles[a]
  }

  /** SoftDeleteSource. */
  function RemoveSourceRow(sources: map<string, Source>, id: string): map<string, Source> {
    if id in sources && !sources[id].removed then sources[id := Source(false, true)] else sources
  }

  /** ListArticleOutboundLinksByArticleIDs: the rows of the given articles, each once, in some order. */
  ghost predicate Lists(db: Db, articles: set<string>, links: seq<Link>) {
    && (forall i, j :: 0 <= i < j < |links| ==> links[i].id != links[j].id)
    && (forall l :: l in links ==>
          l.id in db.links && db.links[l.id].article in articles && db.links[l.id].href == l.href)
    && (forall r :: r in db.links && db.links[r].article in articles ==> Link(r, db.links[r].href) in links)
  }

  /** Row id to stored href, for the rows of the given articles. */
  function HrefsOf(db: Db, articles: set<string>): map<string, string> {
    map l | l in db.links && db.links[l].article in articles :: db.links[l].href
  }

  /** The order of the rows does not matter for the swap. */
  lemma ListedByID(db: Db, articles: set<string>, links: seq<Link>)
    requires Lists(db, articles, links)
    ensures ByID(links) == HrefsOf(db, articles)
  {
    ByIDFacts(links);
  }

  /** CreateArticleOutboundLink for each link in turn. */
  function InsertRows(rows: Rows, article: string, links: seq<Link>): Rows {
    if links == [] then rows
    else
      var l := links[|links| - 1];
      InsertRows(rows, article, links[..|links| - 1])[l.id := OutboundRow(article, l.href)]
  }

  /** The inserts meet no primary key twice. */
  predicate KeysFree(rows: Rows, links: seq<Link>) {
    && (forall l :: l in links ==> l.id !in rows)
    && (forall i, j :: 0 <= i < j < |links| ==> links[i].id != links[j].id)
  }

  lemma {:induction false} InsertRowsKeys(rows: Rows, article: string, links: seq<Link>)
    ensures InsertRows(rows, article, links).Keys == rows.Keys + set l | l in links :: l.id
  {
    if links == [] {
    } else {
      var n := |links| - 1;
      InsertRowsKeys(rows, article, links[..n]);
      assert links == links[..n] + [links[n]];
    }
  }

  lemma {:induction false} InsertRowsFacts(rows: Rows, article: string, links: seq<Link>)
    requires KeysFree(rows, links)
    ensures InsertRows(rows, article, links).Keys == rows.Keys + set l | l in links :: l.id
    ensures forall r :: r in rows ==> InsertRows(rows, article, links)[r] == rows[r]
    ensures forall i :: 0 <= i < |links| ==>
      links[i].id in InsertRows(rows, article, links)
        && InsertRows(rows, article, links)[links[i].id] == OutboundRow(article, links[i].href)
  {
    if links == [] {
    } else {
      var n := |links| - 1;
      assert KeysFree(rows, links[..n]) by {
        assert forall l :: l in links[..n] ==> l in links;
      }
      InsertRowsKeys(rows, article, links);
      InsertRowsFacts(rows, article, links[..n]);
      assert links[n] in links;
    }
  }

  // ---------------------------------------------------------------- transactions

  /** DELETE /articles/{id}. */
  function DeleteArticle(db: Db, id: string): Db {
    if !ActiveArticle(db, id) then db
    else db.(links := RetargetByHref(db.links, InternalHref(id), db.articles[id].url),
             articles := RemoveArticleRow(db.articles, id))
  }

  /** SourceController.SoftDelete. */
  function SoftDeleteSource(db: Db, id: string): Db {
    db.(sources := RemoveSourceRow(db.sources, id),
        links := RetargetBySource(db, id),
        articles := RemoveArticleRowsOf(db.articles, id))
  }

  datatype Outcome = Saved | SourceInvalid | Duplicate | Failed

  /** What persist answers on a working database. A repeated id is a unique violation too. */
  function PersistOutcome(db: Db, item: Item, content: Forest, clientURL: string, aid: string,
                          ids: seq<string>): Outcome {
    var hrefs := Collected(content);
    if !ActiveSource(db, item.source) then SourceInvalid
    else if aid == "" then Failed
    else if aid in db.articles || UrlTaken(db.articles, item.url) then Duplicate
    else if |hrefs| <= |ids| && !KeysFree(db.links, LinksFor(hrefs, ids, clientURL)) then Failed
    else Saved
  }

  function NewArticle(item: Item, body: Forest, keywords: seq<string>): Article {
    Article(item.title, item.url, item.source, body, Keywords.NormalizeAll(keywords), true, false)
  }

  /** The rows for the distinct hrefs of content, and the body in id form, for article aid. When Assign
      runs out of ids the article keeps its urls and gets no rows. */
  function StoreRows(db: Db, aid: string, content: Forest, clientURL: string, ids: seq<string>): Db
    requires aid in db.articles
  {
    if |Collected(content)| > |ids| then db
    else db.(articles := db.articles[aid := db.articles[aid].(body := AssignBody(content, ids))],
             links := InsertRows(db.links, aid, LinksFor(Collected(content), ids, clientURL)))
  }

  /** What persist leaves: the article with its rows, then the older rows that pointed at its external
      url (its own among them) pointing at its page. */
  function Persist(db: Db, item: Item, content: Forest, keywords: seq<string>, clientURL: string, aid: string,
                   ids: seq<string>): Db {
    if PersistOutcome(db, item, content, clientURL, aid, ids) != Saved then db
    else
      var written := db.(articles := db.articles[aid := NewArticle(item, content, keywords)]);
      var stored := StoreRows(written, aid, content, clientURL, ids);
      stored.(links := RetargetByHref(stored.links, item.url, InternalHref(aid)))
  }

  /** The client page of every href that is one of our articles: what resolveInternalURLs answers. */
  ghost function InternalPages(db: Db, clientURL: string, hrefs: seq<string>): Renaming {
    map h | h in hrefs && Owner(db, h).Some? :: clientURL + "/articles/" + Owner(db, h).value
  }

  /** The body after url treatment. */
  ghost function TreatBody(db: Db, clientURL: string, content: Forest): Forest {
    Rewrite(content, InternalPages(db, clientURL, Collected(content)))
  }

  /** clean stands for embed treatment followed by sanitizing. */
  datatype Config = Config(clientURL: string, clean: Forest -> Forest)

  /** The body handed to persist; treated is false when url treatment failed. */
  ghost function PreparedBody(db: Db, cfg: Config, content: Forest, treated: bool): Forest {
    cfg.clean(if cfg.clientURL != "" && treated then TreatBody(db, cfg.clientURL, content) else content)
  }

  /** processOne, up to the judgement; keywords are None when naming them failed. */
  ghost function Discover(db: Db, cfg: Config, item: Item, keywords: Option<seq<string>>, treated: bool, aid: string,
                          ids: seq<string>): Db {
    if Owner(db, item.url).Some? || keywords.None? then db
    else Persist(db, item, PreparedBody(db, cfg, item.content, treated), keywords.value, cfg.clientURL, aid, ids)
  }

  /** ArticleController.Create, as the admin route calls it: no outbound rows, no retargeting. */
  function AdminCreate(db: Db, item: Item, keywords: seq<string>, aid: string): Db {
    if !ActiveSource(db, item.source) || aid == "" || aid in db.articles || UrlTaken(db.articles, item.url) then db
    else db.(articles := db.articles[aid := NewArticle(item, item.content, keywords)])
  }

  /** ArticleController.Update; the source cannot change. A url taken by another indexed row is refused. */
  function AdminUpdate(db: Db, aid: string, title: string, url: string, content: Forest, keywords: seq<string>): Db {
    if !ActiveArticle(db, aid) || UrlTaken(map a | a in db.articles && a != aid :: db.articles[a], url) then db
    else
      var stored := Keywords.NormalizeAll(keywords);
      var later := db.articles[aid].(title := title, url := url, body := content, keywords := stored);
      db.(articles := db.articles[aid := later])
  }

  /** SourceController.Create; id is new. */
  function AddSource(db: Db, id: string): Db {
    if id in db.sources then db else db.(sources := db.sources[id := Source(true, false)])
  }
}

/** The requests that remove articles and those that read them. */
module Endpoints {
  import opened Options
  import opened Sequences
  import opened Html
  import opened OutboundLinks
  import opened Tables
  import opened Stores
  import Effects

  datatype Answer = Done | NotFound | Error

  /** DELETE /articles/{id}: find, retarget to the source url, soft-delete, in one transaction. */
  method DeleteArticleRequest(store: Store, id: string) returns (r: Answer)
    requires store.Consistent()
    modifies store
    ensures store.Consistent() && old(store.served) <= store.served
    ensures store.Contents() == if r == Done then DeleteArticle(old(store.Contents()), id) else old(store.Contents())
    ensures r == Done ==> ActiveArticle(old(store.Contents()), id) && !ActiveArticle(store.Contents(), id)
    ensures store.UpSince(old(store.served)) ==>
      r == if ActiveArticle(old(store.Contents()), id) then Done else NotFound
  {
    var before := store.Begin();
    var found := store.FindArticleByID(id);
    match found
    case NoRows => return NotFound;
    case Row(article) =>
      var retargeted := store.RetargetArticleOutboundLinksByHref(InternalHref(id), article.url);
      if !retargeted.Row? {
        store.Rollback(before);
        return Error;
      }
      var removed := store.SoftDeleteArticle(id);
      if !removed.Row? {
        store.Rollback(before);
        return Error;
      }
      r := Done;
      Effects.ArticleRemoved(before, id);
    case _ => return Error;
  }

  /** DELETE /sources/{id}: find, then the cascade in its order: source, rows, articles. */
  method DeleteSourceRequest(store: Store, id: string) returns (r: Answer)
    requires store.Consistent()
    modifies store
    ensures store.Consistent() && old(store.served) <= store.served
    ensures store.Contents() == if r == Done then SoftDeleteSource(old(store.Contents()), id) else old(store.Contents())
    ensures r == Done ==>
      && ActiveSource(old(store.Contents()), id) && !ActiveSource(store.Contents(), id)
      && forall s :: s != id ==> (ActiveSource(store.Contents(), s) <==> ActiveSource(old(store.Contents()), s))
    ensures store.UpSince(old(store.served)) ==> r == if ActiveSource(old(store.Contents()), id) then Done else NotFound
  {
    var before := store.Begin();
    var found := store.FindSourceByID(id);
    if found == NoRows {
      return NotFound;
    }
    if !found.Row? {
      return Error;
    }
    var removed := store.SoftDeleteSource(id);
    if !removed.Row? {
      store.Rollback(before);
      return Error;
    }
    var retargeted := store.RetargetArticleOutboundLinksBySourceID(id);
    if !retargeted.Row? {
      store.Rollback(before);
      return Error;
    }
    var cascaded := store.SoftDeleteArticlesBySourceID(id);
    if !cascaded.Row? {
      store.Rollback(before);
      return Error;
    }
    r := Done;
    Effects.SourceRemoved(before, id);
  }

  /** The body swap of GET /articles: one batch of rows for the page, one map, every body resolved
      against it. None when the rows could not be read or a response could not be built. */
  method ResolvePage(store: Store, page: seq<string>, clientURL: string, faults: nat -> Faults, broken: nat -> bool)
    returns (docs: Option<seq<Forest>>)
    requires forall a :: a in page ==> a in store.articles
    modifies store`served
    ensures docs.None? <==> (page != [] && store.down(old(store.served))) || exists i :: 0 <= i < |page| && broken(i)
    ensures docs.Some? ==> |docs.value| == |page|
    ensures docs.Some? ==> forall i :: 0 <= i < |page| ==>
      var body := store.articles[page[i]].body;
      docs.value[i]
        == if Faulty(faults(i)) then body
           else ResolveBody(body, HrefsOf(store.Contents(), Elements(page)), clientURL)
  {
    var read, byID := ReadPage(store, page);
    if !read {
      return None;
    }
    var articles := store.articles;
    var bodies := seq(|page|, i requires 0 <= i < |page| && page[i] in articles => articles[page[i]].body);
    docs := ServeBodies(bodies, byID, clientURL, faults, broken);
  }

  /** The rows of the page's articles as one map; no query for an empty page. */
  method ReadPage(store: Store, page: seq<string>) returns (read: bool, byID: map<string, string>)
    modifies store`served
    ensures read <==> page == [] || !store.down(old(store.served))
    ensures read ==> byID == HrefsOf(store.Contents(), Elements(page))
  {
    var links: seq<Link> := [];
    if page != [] {
      var listed := store.ListArticleOutboundLinksByArticleIDs(Elements(page));
      if !listed.Row? {
        return false, map[];
      }
      links := listed.value;
    }
    ListedByID(store.Contents(), Elements(page), links);
    byID := OutboundLinksByID(links);
    read := true;
  }

  /** The loop over the articles of the page. */
  method ServeBodies(bodies: seq<Forest>, byID: map<string, string>, clientURL: string, faults: nat -> Faults,
                     broken: nat -> bool)
    returns (docs: Option<seq<Forest>>)
    ensures docs.None? <==> exists i :: 0 <= i < |bodies| && broken(i)
    ensures docs.Some? ==> |docs.value| == |bodies|
    ensures docs.Some? ==> forall i :: 0 <= i < |bodies| ==>
      docs.value[i] == if Faulty(faults(i)) then bodies[i] else ResolveBody(bodies[i], byID, clientURL)
  {
    var out: seq<Forest> := [];
    for i := 0 to |bodies|
      invariant |out| == i && forall k :: 0 <= k < i ==> !broken(k)
      invariant forall k :: 0 <= k < i ==>
        out[k] == if Faulty(faults(k)) then bodies[k] else ResolveBody(bodies[k], byID, clientURL)
    {
      if broken(i) {
        return None;
      }
      var doc := Resolve(bodies[i], byID, clientURL, faults(i));
      out := out + [doc];
    }
    docs := Some(out);
  }
}

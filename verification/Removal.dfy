/** Removing articles, one at a time or by their source: both are one operation on a set of articles,
    so the set-based cascade and any sequence of single deletions agree. */
module Removal {
  import opened Sequences
  import Html
  import opened OutboundLinks
  import opened Tables

  ghost predicate StatusInSync(db: Db) {
    forall a :: a in db.articles ==> (db.articles[a].status <==> !db.articles[a].removed)
  }

  /** The href is the internal page of a member of ids. */
  predicate Names(href: string, ids: set<string>) {
    InternalHrefPrefix() <= href && href[|InternalHrefPrefix()|..] in ids
  }

  /** All articles of ids removed at once, every row naming one of them back on its url_original. */
  function RemoveAll(db: Db, ids: set<string>): Db
    requires ids <= db.articles.Keys
  {
    db.(links := map l | l in db.links ::
                   if Names(db.links[l].href, ids)
                   then db.links[l].(href := db.articles[db.links[l].href[|InternalHrefPrefix()|..]].url)
                   else db.links[l],
        articles := map a | a in db.articles :: if a in ids then Removed(db.articles[a]) else db.articles[a])
  }

  function IndexedOf(db: Db, source: string): set<string> {
    set a | a in db.articles && Indexed(db.articles, a) && db.articles[a].source == source
  }

  lemma NamesMeans(href: string, ids: set<string>)
    ensures Names(href, ids) <==> exists id :: id in ids && href == InternalHref(id)
  {
    if Names(href, ids) {
      var id := href[|InternalHrefPrefix()|..];
      assert href == InternalHref(id);
    }
    forall id | id in ids && href == InternalHref(id) ensures Names(href, ids) {
      assert href[|InternalHrefPrefix()|..] == id;
    }
  }

  lemma DeleteIsRemoveAll(db: Db, id: string)
    requires ActiveArticle(db, id)
    ensures DeleteArticle(db, id) == RemoveAll(db, {id})
  {
    forall l | l in db.links
      ensures DeleteArticle(db, id).links[l] == RemoveAll(db, {id}).links[l]
    {
      NamesMeans(db.links[l].href, {id});
      if Names(db.links[l].href, {id}) {
        assert db.links[l].href[|InternalHrefPrefix()|..] == id;
      }
    }
    assert DeleteArticle(db, id).links == RemoveAll(db, {id}).links;
    assert DeleteArticle(db, id).articles == RemoveAll(db, {id}).articles;
  }

  lemma CascadeIsRemoveAll(db: Db, source: string)
    ensures SoftDeleteSource(db, source)
      == RemoveAll(db, IndexedOf(db, source)).(sources := RemoveSourceRow(db.sources, source))
  {
    var ids := IndexedOf(db, source);
    assert RetargetBySource(db, source) == RemoveAll(db, ids).links;
    assert RemoveArticleRowsOf(db.articles, source) == RemoveAll(db, ids).articles;
  }

  /** No row that names a member of ids would, once moved on, name another member. */
  ghost predicate NoHop(db: Db, ids: set<string>)
    requires ids <= db.articles.Keys
  {
    forall l, a, b :: l in db.links && a in ids && b in ids ==> !Hop(db, l, a, b)
  }

  /** Row l names a, whose own url_original spells the internal page of another article b. */
  predicate Hop(db: Db, l: string, a: string, b: string)
    requires l in db.links && a in db.articles
  {
    a != b && db.links[l].href == InternalHref(a) && db.articles[a].url == InternalHref(b)
  }

  lemma RemoveAllTwice(db: Db, ids: set<string>, id: string)
    requires ids + {id} <= db.articles.Keys && id !in ids && NoHop(db, ids + {id})
    ensures RemoveAll(RemoveAll(db, ids), {id}) == RemoveAll(db, ids + {id})
  {
    var mid := RemoveAll(db, ids);
    var two, one := RemoveAll(mid, {id}), RemoveAll(db, ids + {id});
    forall l | l in db.links
      ensures two.links[l] == one.links[l]
    {
      NamesMeans(mid.links[l].href, {id});
      NamesMeans(db.links[l].href, ids);
      if Names(db.links[l].href, ids) {
        var a := db.links[l].href[|InternalHrefPrefix()|..];
        assert db.links[l].href == InternalHref(a);
        assert !Hop(db, l, a, id);
      }
    }
    assert two.links == one.links;
    assert two.articles == one.articles;
  }

  /** DELETE /articles/{id} for each id in turn. */
  function DeleteEach(db: Db, ids: seq<string>): Db {
    if ids == [] then db else DeleteArticle(DeleteEach(db, ids[..|ids| - 1]), ids[|ids| - 1])
  }

  lemma {:induction false} DeleteEachIsRemoveAll(db: Db, ids: seq<string>)
    requires Distinct(ids)
    requires forall id :: id in ids ==> ActiveArticle(db, id)
    requires Elements(ids) <= db.articles.Keys && NoHop(db, Elements(ids))
    ensures DeleteEach(db, ids) == RemoveAll(db, Elements(ids))
  {
    if ids == [] {
      assert RemoveAll(db, {}).links == db.links;
      assert RemoveAll(db, {}).articles == db.articles;
    } else {
      var last, front := ids[|ids| - 1], ids[..|ids| - 1];
      assert ids == front + [last];
      ElementsAppend(front, last);
      assert DeleteEach(db, front) == RemoveAll(db, Elements(front)) by {
        DeleteEachIsRemoveAll(db, front);
      }
      assert last in ids;
      DeleteIsRemoveAll(RemoveAll(db, Elements(front)), last);
      RemoveAllTwice(db, Elements(front), last);
    }
  }

  /** ids is an enumeration of the source's unremoved articles. */
  ghost predicate Enumerates(db: Db, source: string, ids: seq<string>) {
    Distinct(ids) && Elements(ids) == IndexedOf(db, source)
  }

  /** Deleting in this order ends where the cascade ends. */
  ghost predicate CascadeIsFold(db: Db, source: string, ids: seq<string>) {
    SoftDeleteSource(db, source) == DeleteEach(db, ids).(sources := RemoveSourceRow(db.sources, source))
  }

  /** Without such a row the set-based cascade leaves the state that deleting the source's articles one
      by one leaves, whatever the order. */
  lemma CascadeEqualsFold(db: Db, source: string, ids: seq<string>)
    requires StatusInSync(db) && NoHop(db, IndexedOf(db, source)) && Enumerates(db, source, ids)
    ensures CascadeIsFold(db, source, ids)
  {
    forall id | id in ids ensures ActiveArticle(db, id) {
      assert id in IndexedOf(db, source);
    }
    DeleteEachIsRemoveAll(db, ids);
    CascadeIsRemoveAll(db, source);
  }

  lemma {:induction false} Enumerate(s: set<string>) returns (ids: seq<string>)
    ensures Distinct(ids) && Elements(ids) == s
    decreases s
  {
    if s == {} {
      ids := [];
    } else {
      var x :| x in s;
      var rest := Enumerate(s - {x});
      ids := rest + [x];
      ElementsAppend(rest, x);
    }
  }

  /** Deleting other articles leaves a row that names a where it is, and a and b as they are. */
  lemma {:induction false} DeleteOthers(db: Db, ids: seq<string>, l: string, a: string, b: string)
    requires ActiveArticle(db, a) && ActiveArticle(db, b) && a !in ids && b !in ids
    requires l in db.links && db.links[l].href == InternalHref(a)
    ensures var t := DeleteEach(db, ids);
      && l in t.links && t.links[l] == db.links[l]
      && a in t.articles && t.articles[a] == db.articles[a] && b in t.articles && t.articles[b] == db.articles[b]
  {
    if ids == [] {
    } else {
      var last, front := ids[|ids| - 1], ids[..|ids| - 1];
      DeleteOthers(db, front, l, a, b);
      if InternalHref(last) == InternalHref(a) {
        InternalHrefInjective(last, a);
      }
    }
  }

  /** With such a row, the order that takes its two articles last moves it on twice: the cascade, which
      moves it once, ends elsewhere. */
  lemma HopBreaksFold(db: Db, source: string, l: string, a: string, b: string) returns (ids: seq<string>)
    requires StatusInSync(db) && UniqueUrls(db)
    requires l in db.links && a in IndexedOf(db, source) && b in IndexedOf(db, source) && Hop(db, l, a, b)
    ensures Enumerates(db, source, ids) && !CascadeIsFold(db, source, ids)
  {
    var rest := Enumerate(IndexedOf(db, source) - {a, b});
    assert a !in Elements(rest) && b !in Elements(rest);
    ids := rest + [a] + [b];
    ElementsAppend(rest, a);
    ElementsAppend(rest + [a], b);
    assert Elements(ids) == IndexedOf(db, source);
    DeleteOthers(db, rest, l, a, b);
    var t := DeleteEach(db, rest);
    assert DeleteEach(db, rest + [a]) == DeleteArticle(t, a) by {
      assert (rest + [a])[..|rest|] == rest;
    }
    assert DeleteEach(db, ids) == DeleteArticle(DeleteArticle(t, a), b) by {
      assert ids[..|ids| - 1] == rest + [a];
    }
    MovedTwice(t, l, a, b);
    CascadeIsRemoveAll(db, source);
    NamesMeans(db.links[l].href, IndexedOf(db, source));
    assert db.links[l].href[|InternalHrefPrefix()|..] == a;
    assert db.articles[b].url != InternalHref(b);
  }

  lemma MovedTwice(t: Db, l: string, a: string, b: string)
    requires l in t.links && ActiveArticle(t, a) && ActiveArticle(t, b) && Hop(t, l, a, b)
    ensures l in DeleteArticle(DeleteArticle(t, a), b).links
    ensures DeleteArticle(DeleteArticle(t, a), b).links[l].href == t.articles[b].url
  {
  }

  /** The cascade equals deleting the articles one by one, in every order, exactly when no row names an
      article of the source whose url_original is the internal page of another one of them. */
  lemma CascadeEqualsFoldExactly(db: Db, source: string)
    requires StatusInSync(db) && UniqueUrls(db)
    ensures (forall ids :: Enumerates(db, source, ids) ==> CascadeIsFold(db, source, ids))
      <==> NoHop(db, IndexedOf(db, source))
  {
    if NoHop(db, IndexedOf(db, source)) {
      forall ids | Enumerates(db, source, ids) ensures CascadeIsFold(db, source, ids) {
        CascadeEqualsFold(db, source, ids);
      }
    } else {
      var l, a, b :| l in db.links && a in IndexedOf(db, source) && b in IndexedOf(db, source) && Hop(db, l, a, b);
      var ids := HopBreaksFold(db, source, l, a, b);
    }
  }

  /** There are such tables: nothing keeps an item's link from spelling an internal page. */
  lemma CascadeDiffersOnInternalUrl() returns (db: Db, source: string, ids: seq<string>)
    ensures StatusInSync(db) && UniqueUrls(db) && Enumerates(db, source, ids) && !CascadeIsFold(db, source, ids)
  {
    var a := Article("", InternalHref("2"), "s", Html.Nil, [], true, false);
    var b := Article("", "u", "s", Html.Nil, [], true, false);
    db := Db(map["s" := Source(true, false)], map["1" := a, "2" := b], map["l" := OutboundRow("2", InternalHref("1"))]);
    source := "s";
    TokenFreeIsNotInternal("u", "2");
    assert Hop(db, "l", "1", "2");
    ids := HopBreaksFold(db, "s", "l", "1", "2");
  }

  /** The order inside the cascade matters: after the soft delete the retarget finds no article any
      more, so every row naming an article of the source keeps naming a removed one. */
  lemma RetargetMustComeFirst(db: Db, source: string)
    ensures RetargetBySource(db.(articles := RemoveArticleRowsOf(db.articles, source)), source) == db.links
  {
    var later := db.(articles := RemoveArticleRowsOf(db.articles, source));
    forall l | l in db.links
      ensures !JoinsSource(later, source, db.links[l].href)
    {
    }
    assert RetargetBySource(later, source) == db.links;
  }
}

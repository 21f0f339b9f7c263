/** The database as an object: one method per SQL statement, updating the tables in place. */
module Stores {
  import opened Options
  import Html
  import OutboundLinks
  import opened Tables

  /** What a statement answers. */
  datatype Sql<+T> = Row(value: T) | NoRows | UniqueViolation | Unavailable

  class Store {
    var sources: map<string, Source>
    var articles: map<string, Article>
    var links: Rows
    /** Statements received so far; down tells which of them the database fails to serve. */
    var served: nat
    const down: nat -> bool

    constructor (down: nat -> bool)
      ensures Contents() == Db(map[], map[], map[]) && served == 0 && this.down == down
    {
      sources, articles, links, served := map[], map[], map[], 0;
      this.down := down;
    }

    ghost function Contents(): Db
      reads this`sources, this`articles, this`links
    {
      Db(sources, articles, links)
    }

    /** The database enforces its unique index. */
    ghost predicate Consistent()
      reads this`sources, this`articles, this`links
    {
      UniqueUrls(Contents())
    }

    /** No statement since the given one failed to be served. */
    ghost predicate UpSince(from: nat)
      reads this`served
    {
      forall k :: from <= k < served ==> !down(k)
    }

    method Serve() returns (up: bool)
      modifies this`served
      ensures served == old(served) + 1 && up == !down(old(served))
    {
      up := !down(served);
      served := served + 1;
    }

    // -------------------------------------------------------------- transactions

    /** BeginTx: what a rollback goes back to. */
    method Begin() returns (t: Db)
      ensures t == Contents()
    {
      t := Db(sources, articles, links);
    }

    method Rollback(t: Db)
      modifies this`sources, this`articles, this`links
      ensures Contents() == t
    {
      sources, articles, links := t.sources, t.articles, t.links;
    }

    // -------------------------------------------------------------- sources

    method FindSourceByID(id: string) returns (r: Sql<()>)
      modifies this`served
      ensures served == old(served) + 1
      ensures r == if down(old(served)) then Unavailable else if ActiveSource(Contents(), id) then Row(()) else NoRows
    {
      var up := Serve();
      if !up {
        return Unavailable;
      }
      r := if id in sources && sources[id].status && !sources[id].removed then Row(()) else NoRows;
    }

    method SoftDeleteSource(id: string) returns (r: Sql<()>)
      modifies this`served, this`sources
      ensures served == old(served) + 1
      ensures r == if down(old(served)) then Unavailable else Row(())
      ensures sources == if r.Row? then RemoveSourceRow(old(sources), id) else old(sources)
      ensures r.Row? ==>
        && !ActiveSource(Contents(), id)
        && forall s :: s in old(sources) && s != id ==> sources[s] == old(sources)[s]
    {
      var up := Serve();
      if !up {
        return Unavailable;
      }
      if id in sources && !sources[id].removed {
        sources := sources[id := Source(false, true)];
      }
      r := Row(());
    }

    // -------------------------------------------------------------- articles

    method FindArticleByID(id: string) returns (r: Sql<Article>)
      modifies this`served
      ensures served == old(served) + 1
      ensures r.Unavailable? <==> down(old(served))
      ensures r.Row? ==> ActiveArticle(Contents(), id) && r.value == articles[id]
      ensures r.NoRows? ==> !ActiveArticle(Contents(), id)
      ensures !r.UniqueViolation?
    {
      var up := Serve();
      if !up {
        return Unavailable;
      }
      r := if id in articles && articles[id].status && !articles[id].removed then Row(articles[id]) else NoRows;
    }

    /** LIMIT 1 over the active articles of this url_original: the id of one of them. */
    method FindArticleByURLOriginal(url: string) returns (r: Sql<string>)
      requires Consistent()
      modifies this`served
      ensures served == old(served) + 1
      ensures r == if down(old(served)) then Unavailable
                   else match Owner(Contents(), url) case Some(id) => Row(id) case None => NoRows
    {
      var up := Serve();
      if !up {
        return Unavailable;
      }
      var hits := set id | id in articles && articles[id].status && !articles[id].removed && articles[id].url == url;
      if hits == {} {
        assert forall id :: Owns(Contents(), id, url) ==> id in hits;
        return NoRows;
      }
      var id :| id in hits;
      OwnerIs(Contents(), id, url);
      r := Row(id);
    }

    method CreateArticle(id: string, a: Article) returns (r: Sql<()>)
      requires Consistent() && a.status && !a.removed
      modifies this`served, this`articles
      ensures Consistent() && served == old(served) + 1
      ensures r == if down(old(served)) then Unavailable
                   else if id in old(articles) || UrlTaken(old(articles), a.url) then UniqueViolation else Row(())
      ensures articles == if r.Row? then old(articles)[id := a] else old(articles)
    {
      var up := Serve();
      if !up {
        return Unavailable;
      }
      if id in articles || (exists b :: b in articles && !articles[b].removed && articles[b].url == a.url) {
        return UniqueViolation;
      }
      assert forall b :: Indexed(articles, b) ==> articles[b].url != a.url;
      articles := articles[id := a];
      r := Row(());
    }

    method UpdateArticleContent(id: string, body: Html.Forest) returns (r: Sql<()>)
      requires Consistent()
      modifies this`served, this`articles
      ensures Consistent() && served == old(served) + 1
      ensures r == if down(old(served)) then Unavailable else Row(())
      ensures articles == if r.Row? && ActiveArticle(old(Contents()), id)
        then old(articles)[id := old(articles)[id].(body := body)] else old(articles)
    {
      var up := Serve();
      if !up {
        return Unavailable;
      }
      if id in articles && articles[id].status && !articles[id].removed {
        articles := articles[id := articles[id].(body := body)];
        assert forall a :: Indexed(articles, a) ==>
          Indexed(old(articles), a) && articles[a].url == old(articles)[a].url;
      }
      r := Row(());
    }

    method SoftDeleteArticle(id: string) returns (r: Sql<()>)
      requires Consistent()
      modifies this`served, this`articles
      ensures Consistent() && served == old(served) + 1
      ensures r == if down(old(served)) then Unavailable else Row(())
      ensures articles == if r.Row? then RemoveArticleRow(old(articles), id) else old(articles)
    {
      var up := Serve();
      if !up {
        return Unavailable;
      }
      if id in articles && !articles[id].removed {
        articles := articles[id := articles[id].(status := false, removed := true)];
      }
      assert forall a :: Indexed(articles, a) ==> Indexed(old(articles), a) && articles[a].url == old(articles)[a].url;
      r := Row(());
    }

    method SoftDeleteArticlesBySourceID(source: string) returns (r: Sql<()>)
      requires Consistent()
      modifies this`served, this`articles
      ensures Consistent() && served == old(served) + 1
      ensures r == if down(old(served)) then Unavailable else Row(())
      ensures articles == if r.Row? then RemoveArticleRowsOf(old(articles), source) else old(articles)
    {
      var up := Serve();
      if !up {
        return Unavailable;
      }
      articles := RemoveArticleRowsOf(articles, source);
      assert forall a :: Indexed(articles, a) ==> Indexed(old(articles), a) && articles[a].url == old(articles)[a].url;
      r := Row(());
    }

    // -------------------------------------------------------------- outbound links

    method CreateArticleOutboundLink(id: string, article: string, href: string) returns (r: Sql<()>)
      modifies this`served, this`links
      ensures served == old(served) + 1
      ensures r == if down(old(served)) then Unavailable else if id in old(links) then UniqueViolation else Row(())
      ensures links == if r.Row? then old(links)[id := OutboundRow(article, href)] else old(links)
    {
      var up := Serve();
      if !up {
        return Unavailable;
      }
      if id in links {
        return UniqueViolation;
      }
      links := links[id := OutboundRow(article, href)];
      r := Row(());
    }

    method RetargetArticleOutboundLinksByHref(oldHref: string, newHref: string) returns (r: Sql<()>)
      modifies this`served, this`links
      ensures served == old(served) + 1
      ensures r == if down(old(served)) then Unavailable else Row(())
      ensures links == if r.Row? then RetargetByHref(old(links), oldHref, newHref) else old(links)
    {
      var up := Serve();
      if !up {
        return Unavailable;
      }
      links := RetargetByHref(links, oldHref, newHref);
      r := Row(());
    }

    method RetargetArticleOutboundLinksBySourceID(source: string) returns (r: Sql<()>)
      modifies this`served, this`links
      ensures served == old(served) + 1
      ensures r == if down(old(served)) then Unavailable else Row(())
      ensures links == if r.Row? then RetargetBySource(old(Contents()), source) else old(links)
    {
      var up := Serve();
      if !up {
        return Unavailable;
      }
      links := RetargetBySource(Db(sources, articles, links), source);
      r := Row(());
    }

    method ListArticleOutboundLinksByArticleIDs(ids: set<string>) returns (r: Sql<seq<OutboundLinks.Link>>)
      modifies this`served
      ensures served == old(served) + 1
      ensures r.Unavailable? <==> down(old(served))
      ensures !r.Unavailable? ==> r.Row? && Lists(Contents(), ids, r.value)
    {
      var up := Serve();
      if !up {
        return Unavailable;
      }
      var todo := set l | l in links && links[l].article in ids;
      var items: seq<OutboundLinks.Link> := [];
      while todo != {}
        invariant forall l :: l in todo ==> l in links && links[l].article in ids
        invariant forall i :: 0 <= i < |items| ==> items[i].id !in todo
        invariant forall i, j :: 0 <= i < j < |items| ==> items[i].id != items[j].id
        invariant forall i :: 0 <= i < |items| ==>
          items[i].id in links && links[items[i].id].article in ids && links[items[i].id].href == items[i].href
        invariant forall l :: l in links && links[l].article in ids ==>
          l in todo || OutboundLinks.Link(l, links[l].href) in items
        decreases todo
      {
        var l :| l in todo;
        items := items + [OutboundLinks.Link(l, links[l].href)];
        todo := todo - {l};
      }
      r := Row(items);
    }
  }
}

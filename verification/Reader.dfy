/** What readers are served: the stored body with its row ids swapped for the current targets. */
module Reader {
  import opened Options
  import opened Sequences
  import opened Html
  import opened OutboundLinks
  import opened Places
  import opened Tables
  import opened Effects
  import opened Runs
  import Soundness
  import LinkView

  lemma RowShown(w: World, cfg: Config, u: string, l: string)
    requires Sound(w, cfg) && LinkView.View(w) && l in w.db.links && w.origin[l] == u
    ensures Expand(w.db.links[l].href, cfg.clientURL)
         == match Owner(w.db, u) case Some(x) => cfg.clientURL + "/articles/" + x case None => u
  {
    match Owner(w.db, u)
    case Some(x) =>
      IdIsTokenFree(x);
      ExpandInternal(x, cfg.clientURL);
    case None =>
      DomainMove(u, "", cfg.clientURL);
  }

  /** Reading is treating now: in a state of the view, resolving the stored body of an article the
      pipeline wrote gives the very tree that url treatment of the clean source would give at this
      moment. Every href u of the source is the client page of u's active article, or u itself. */
  lemma ReadIsTreatNow(w: World, cfg: Config, a: string, articles: set<string>)
    requires Sound(w, cfg) && LinkView.View(w) && a in w.written && a in articles
    ensures a in w.db.articles
    ensures ResolveBody(w.db.articles[a].body, HrefsOf(w.db, articles), cfg.clientURL)
         == TreatBody(w.db, cfg.clientURL, w.written[a].text)
  {
    assert WrittenSound(w, a);
    var text, m := w.written[a].text, w.written[a].ids;
    var n := Expanded(HrefsOf(w.db, articles), cfg.clientURL);
    var pages := InternalPages(w.db, cfg.clientURL, Collected(text));
    forall h | h in AllHrefs(text)
      ensures Apply(n, Apply(m, h)) == Apply(pages, h)
    {
      if h in m {
        assert m[h] in HrefsOf(w.db, articles);
        RowShown(w, cfg, h, m[h]);
      } else {
        assert h !in w.db.links;
      }
    }
    RewriteCompose(text, m, n, pages);
  }

  /** The same after any run of processing and removals. */
  lemma EveryRunReadsAsTreatedNow(cfg: Config, steps: seq<Step>, a: string, links: seq<Link>)
    requires cfg.clientURL != "" && AdmissibleRun(EMPTY, cfg, steps)
    requires forall i :: 0 <= i < |steps| ==> LinkView.KeepsView(steps[i])
    requires a in Run(EMPTY, cfg, steps).written && Lists(Run(EMPTY, cfg, steps).db, {a}, links)
    ensures a in Run(EMPTY, cfg, steps).db.articles
    ensures ResolveBody(Run(EMPTY, cfg, steps).db.articles[a].body, ByID(links), cfg.clientURL)
         == TreatBody(Run(EMPTY, cfg, steps).db, cfg.clientURL, Run(EMPTY, cfg, steps).written[a].text)
  {
    Soundness.EveryRunSound(cfg, steps);
    LinkView.EveryRunKeepsView(cfg, steps);
    ListedByID(Run(EMPTY, cfg, steps).db, {a}, links);
    ReadIsTreatNow(Run(EMPTY, cfg, steps), cfg, a, {a});
  }

  /** What the history of an article records is the clean form of the item it came from. */
  lemma WrittenFrom(w: World, cfg: Config, step: Step)
    requires Sound(w, cfg) && Admissible(w, cfg, step) && step.Process? && step.aid in Next(w, cfg, step).written
    ensures step.aid in Next(w, cfg, step).db.articles && step.aid !in w.db.articles
    ensures Next(w, cfg, step).written[step.aid].text == cfg.clean(step.item.content)
    ensures Next(w, cfg, step).db.articles[step.aid].url == step.item.url
  {
    forall b | b in w.written ensures b in w.db.articles {
      assert WrittenSound(w, b);
    }
  }

  lemma DraftRecorded(w: World, cfg: Config, d: Draft)
    requires d.aid !in w.db.articles && d.aid !in w.written
    ensures var later := PersistWorld(w, cfg, d);
      && (forall a :: a in w.written ==> a in later.written && later.written[a] == w.written[a])
      && (d.aid in later.written <==> d.aid in later.db.articles && |Collected(d.text)| <= |d.ids|)
  {
  }

  /** It is recorded exactly of the articles saved with their rows. */
  lemma RecordedExactly(w: World, cfg: Config, step: Step)
    requires Sound(w, cfg) && Admissible(w, cfg, step) && step.Process?
    ensures var later := Next(w, cfg, step);
      && (forall a :: a in w.written ==> a in later.written && later.written[a] == w.written[a])
      && (step.aid in later.written <==>
            step.aid in later.db.articles && |Collected(cfg.clean(step.item.content))| <= |step.ids|)
  {
    forall b | b in w.written ensures b in w.db.articles {
      assert WrittenSound(w, b);
    }
    if Owner(w.db, step.item.url).None? && step.named.Some? {
      var seen := if step.treated && cfg.clientURL != "" then Some(w.db) else None;
      var text := cfg.clean(step.item.content);
      DraftRecorded(w, cfg, Draft(seen, step.item, text, step.named.value, step.aid, step.ids));
    }
  }

  /** Each new row is recorded with the href it is for, and the old rows keep theirs. */
  lemma OriginsMean(w: World, cfg: Config, d: Draft, i: nat)
    requires Saves(w, cfg, d) && i < |Collected(d.text)| <= |d.ids| && Distinct(d.ids)
    ensures var origin := PersistWorld(w, cfg, d).origin;
      && d.ids[i] in origin && origin[d.ids[i]] == Collected(d.text)[i]
      && forall l :: l in w.origin && l !in d.ids ==> l in origin && origin[l] == w.origin[l]
  {
    var hrefs := Collected(d.text);
    IdByHrefFacts(d.ids[..|hrefs|], hrefs);
  }

  /** Nothing else changes what is recorded, but an edited article loses its record. */
  lemma RecordsStay(w: World, cfg: Config, step: Step)
    requires !step.Process?
    ensures var later := Next(w, cfg, step);
      && later.origin == w.origin
      && later.written == if step.UpdateByAdmin? && later.db != w.db then w.written - {step.id} else w.written
  {
  }

  /** What a reader is shown of the anchor to h that stands at place p of the clean source: an anchor to the
      page of the article of that url, if one is active now, and else to h. */
  lemma ReaderSeesLink(cfg: Config, steps: seq<Step>, a: string, links: seq<Link>, p: Place, h: string)
    requires cfg.clientURL != "" && AdmissibleRun(EMPTY, cfg, steps)
    requires forall i :: 0 <= i < |steps| ==> LinkView.KeepsView(steps[i])
    requires a in Run(EMPTY, cfg, steps).written && Lists(Run(EMPTY, cfg, steps).db, {a}, links)
    requires LinkAt(Run(EMPTY, cfg, steps).written[a].text, p, h)
    ensures a in Run(EMPTY, cfg, steps).db.articles
    ensures var db := Run(EMPTY, cfg, steps).db;
      var y := Locate(ResolveBody(db.articles[a].body, ByID(links), cfg.clientURL), p);
      && y.Elem? && y.tag == "a"
      && (forall x :: LiveArticle(db, x) && db.articles[x].url == h ==>
            IsFirstHref(y.attrs, cfg.clientURL + "/articles/" + x))
      && ((forall x :: LiveArticle(db, x) ==> db.articles[x].url != h) ==> IsFirstHref(y.attrs, h))
  {
    Soundness.EveryRunSound(cfg, steps);
    EveryRunReadsAsTreatedNow(cfg, steps, a, links);
    var w := Run(EMPTY, cfg, steps);
    LinkTreated(w.db, cfg.clientURL, w.written[a].text, p, h);
  }

  /** And at no place anything else than an anchor's href is changed. */
  lemma ReaderSeesRest(cfg: Config, steps: seq<Step>, a: string, links: seq<Link>, p: Place)
    requires cfg.clientURL != "" && AdmissibleRun(EMPTY, cfg, steps)
    requires forall i :: 0 <= i < |steps| ==> LinkView.KeepsView(steps[i])
    requires a in Run(EMPTY, cfg, steps).written && Lists(Run(EMPTY, cfg, steps).db, {a}, links)
    ensures a in Run(EMPTY, cfg, steps).db.articles
    ensures var w := Run(EMPTY, cfg, steps);
      var served := ResolveBody(w.db.articles[a].body, ByID(links), cfg.clientURL);
      SameButHrefs(Locate(w.written[a].text, p), Locate(served, p),
                   InternalPages(w.db, cfg.clientURL, Collected(w.written[a].text)))
  {
    EveryRunReadsAsTreatedNow(cfg, steps, a, links);
    var w := Run(EMPTY, cfg, steps);
    TreatedEverywhere(w.db, cfg.clientURL, w.written[a].text, p);
  }

  /** One map for a whole page gives each article what its own rows alone give: no article's rows
      reach another article's body. */
  lemma PageResolvesApart(w: World, cfg: Config, page: set<string>, a: string)
    requires Sound(w, cfg) && a in page && a in w.db.articles
    ensures ResolveBody(w.db.articles[a].body, HrefsOf(w.db, page), cfg.clientURL)
         == ResolveBody(w.db.articles[a].body, HrefsOf(w.db, {a}), cfg.clientURL)
  {
    var whole, own := Expanded(HrefsOf(w.db, page), cfg.clientURL), Expanded(HrefsOf(w.db, {a}), cfg.clientURL);
    forall h | h in AllHrefs(w.db.articles[a].body)
      ensures Apply(whole, h) == Apply(own, h)
    {
      assert OwnRowsOnly(w.db, a);
    }
    RewriteAgree(w.db.articles[a].body, whole, own);
  }

  /** The same after any run of all steps, for the rows as the two queries list them. */
  lemma EveryRunResolvesApart(cfg: Config, steps: seq<Step>, page: set<string>, a: string, links: seq<Link>,
                              own: seq<Link>)
    requires AdmissibleRun(EMPTY, cfg, steps)
    requires a in page && a in Run(EMPTY, cfg, steps).db.articles
    requires Lists(Run(EMPTY, cfg, steps).db, page, links) && Lists(Run(EMPTY, cfg, steps).db, {a}, own)
    ensures var body := Run(EMPTY, cfg, steps).db.articles[a].body;
      ResolveBody(body, ByID(links), cfg.clientURL) == ResolveBody(body, ByID(own), cfg.clientURL)
  {
    var w := Run(EMPTY, cfg, steps);
    Soundness.EveryRunSound(cfg, steps);
    ListedByID(w.db, page, links);
    ListedByID(w.db, {a}, own);
    PageResolvesApart(w, cfg, page, a);
  }
}

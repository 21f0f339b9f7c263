/** The discovery batch at the grain of transactions: the pool's workers run dedup check, url treatment
    and persist as separate steps, mixed with each other and with any other request. */
module Interleaving {
  import opened Options
  import Html
  import opened Tables
  import Removal
  import Runs
  import Soundness
  import Effects
  import P = Pool

  datatype Phase = Checking | Treating | Ready(content: Html.Forest) | Ended

  datatype Sys = Sys(pool: P.Pool, db: Db, phase: map<nat, Phase>)

  /** Drop is any failure that ends an item: a failed lookup, naming or persist. StoreElsewhere is a
      persist of another, overlapping sweep; Other is a transaction of another request. */
  datatype Move =
    | Sched(s: P.PoolStep)
    | Check(i: nat)
    | Treat(i: nat, treated: bool)
    | Drop(i: nat)
    | Store(i: nat, keywords: seq<string>, aid: string, ids: seq<string>)
    | StoreElsewhere(item: Item, content: Html.Forest, keywords: seq<string>, aid: string, ids: seq<string>)
    | Other(step: Runs.Step)

  ghost predicate Enabled(s: Sys, m: Move) {
    match m
    case Sched(p) => P.Enabled(s.pool, p) && (p.Finish? ==> p.i in s.phase && s.phase[p.i] == Ended)
    case Check(i) => i in s.phase && s.phase[i] == Checking
    case Treat(i, _) => i in s.phase && s.phase[i] == Treating
    case Drop(i) => i in s.phase && s.phase[i] != Ended
    case Store(i, _, _, _) => i in s.phase && s.phase[i].Ready?
    case StoreElsewhere(_, _, _, _, _) => true
    case Other(step) => !step.Process?
  }

  ghost function Apply(s: Sys, cfg: Config, batch: seq<Item>, m: Move): Sys
    requires Enabled(s, m) && forall i :: i in s.phase ==> i < |batch|
  {
    match m
    case Sched(p) =>
      s.(pool := P.Step(s.pool, p),
         phase := if p.Dispatch? then s.phase[s.pool.next := Checking] else s.phase)
    case Check(i) => s.(phase := s.phase[i := if Owner(s.db, batch[i].url).Some? then Ended else Treating])
    case Treat(i, treated) => s.(phase := s.phase[i := Ready(PreparedBody(s.db, cfg, batch[i].content, treated))])
    case Drop(i) => s.(phase := s.phase[i := Ended])
    case Store(i, keywords, aid, ids) =>
      s.(db := Persist(s.db, batch[i], s.phase[i].content, keywords, cfg.clientURL, aid, ids),
         phase := s.phase[i := Ended])
    case StoreElsewhere(item, content, keywords, aid, ids) =>
      s.(db := Persist(s.db, item, content, keywords, cfg.clientURL, aid, ids))
    case Other(step) => s.(db := Runs.NextDb(s.db, cfg, step))
  }

  ghost function Begin(db: Db, workers: nat, batch: seq<Item>): Sys {
    Sys(P.Start(workers, |batch|), db, map[])
  }

  /** The pool and the workers agree: the items dispatched are those with a phase, and only an ended
      item has finished. */
  ghost predicate Coupled(s: Sys, batch: seq<Item>) {
    && P.Inv(s.pool) && s.pool.n == |batch|
    && (forall i :: i in s.phase <==> 0 <= i < s.pool.next)
    && (forall i :: i in s.pool.log ==> i in s.phase && s.phase[i] == Ended)
  }

  lemma MoveKeepsCoupled(s: Sys, cfg: Config, batch: seq<Item>, m: Move)
    requires Coupled(s, batch) && Enabled(s, m)
    ensures Coupled(Apply(s, cfg, batch, m), batch)
  {
    if m.Sched? {
      SchedKeepsCoupled(s, cfg, batch, m);
    }
  }

  lemma SchedKeepsCoupled(s: Sys, cfg: Config, batch: seq<Item>, m: Move)
    requires Coupled(s, batch) && Enabled(s, m) && m.Sched?
    ensures Coupled(Apply(s, cfg, batch, m), batch)
  {
    P.StepKeepsInv(s.pool, m.s);
  }

  ghost predicate Legal(s: Sys, cfg: Config, batch: seq<Item>, moves: seq<Move>)
    requires Coupled(s, batch)
    decreases moves
  {
    moves == [] ||
    (&& Enabled(s, moves[0])
     && (MoveKeepsCoupled(s, cfg, batch, moves[0]); Legal(Apply(s, cfg, batch, moves[0]), cfg, batch, moves[1..])))
  }

  ghost function Exec(s: Sys, cfg: Config, batch: seq<Item>, moves: seq<Move>): (t: Sys)
    requires Coupled(s, batch) && Legal(s, cfg, batch, moves)
    ensures Coupled(t, batch)
    decreases moves
  {
    if moves == [] then s
    else
      MoveKeepsCoupled(s, cfg, batch, moves[0]);
      Exec(Apply(s, cfg, batch, moves[0]), cfg, batch, moves[1..])
  }

  /** Uninterrupted, the three transactions of an item are the pipeline for it: the tables end as one
      discovery step leaves them, and the item has ended. */
  lemma UninterruptedIsDiscover(s: Sys, cfg: Config, batch: seq<Item>, i: nat, treated: bool, keywords: seq<string>,
                                aid: string, ids: seq<string>) returns (t: Sys)
    requires Coupled(s, batch) && Enabled(s, Check(i))
    ensures t.phase == s.phase[i := Ended] && t.pool == s.pool
    ensures t.db == Discover(s.db, cfg, batch[i], Some(keywords), treated, aid, ids)
    ensures var checked := Apply(s, cfg, batch, Check(i));
      if Owner(s.db, batch[i].url).Some? then t == checked
      else
        && Enabled(checked, Treat(i, treated))
        && var prepared := Apply(checked, cfg, batch, Treat(i, treated));
           && Enabled(prepared, Store(i, keywords, aid, ids))
           && t == Apply(prepared, cfg, batch, Store(i, keywords, aid, ids))
  {
    t := Apply(s, cfg, batch, Check(i));
    if Owner(s.db, batch[i].url).None? {
      t := Apply(t, cfg, batch, Treat(i, treated));
      t := Apply(t, cfg, batch, Store(i, keywords, aid, ids));
    }
  }

  /** Everybody else's transactions are what they are elsewhere. */
  lemma OthersMean(s: Sys, cfg: Config, batch: seq<Item>, m: Move)
    requires Coupled(s, batch) && Enabled(s, m)
    ensures m.Other? ==> Apply(s, cfg, batch, m) == s.(db := Runs.NextDb(s.db, cfg, m.step))
    ensures m.StoreElsewhere? ==>
      Apply(s, cfg, batch, m) == s.(db := Persist(s.db, m.item, m.content, m.keywords, cfg.clientURL, m.aid, m.ids))
  {
  }

  // ---------------------------------------------------------------- dedup

  lemma PersistKeepsUnique(db: Db, item: Item, content: Html.Forest, keywords: seq<string>, clientURL: string,
                           aid: string, ids: seq<string>)
    requires UniqueUrls(db)
    ensures UniqueUrls(Persist(db, item, content, keywords, clientURL, aid, ids))
  {
    var later := Persist(db, item, content, keywords, clientURL, aid, ids);
    if PersistOutcome(db, item, content, clientURL, aid, ids) == Saved {
      Soundness.InsertKeepsUnique(db, aid, later.articles[aid]);
      assert later.articles == db.articles[aid := later.articles[aid]];
    }
  }

  lemma OtherKeepsUnique(db: Db, cfg: Config, step: Runs.Step)
    requires UniqueUrls(db) && !step.Process?
    ensures UniqueUrls(Runs.NextDb(db, cfg, step))
  {
    var later := Runs.NextDb(db, cfg, step);
    match step
    case CreateByAdmin(item, keywords, aid) =>
      if later != db { Soundness.InsertKeepsUnique(db, aid, later.articles[aid]); }
    case UpdateByAdmin(id, title, url, content, keywords) =>
      Soundness.UpdateKeepsUnique(db, id, title, url, content, keywords);
    case _ =>
      Soundness.RemovalKeepsUnique(db, later);
  }

  /** However the transactions of any number of workers, of overlapping sweeps and of other requests
      interleave, whatever ids they use and whatever fails, no two active articles ever share a
      url_original. */
  lemma {:induction false} NeverTwoForOneUrl(s: Sys, cfg: Config, batch: seq<Item>, moves: seq<Move>)
    requires Coupled(s, batch) && Legal(s, cfg, batch, moves) && UniqueUrls(s.db)
    ensures UniqueUrls(Exec(s, cfg, batch, moves).db)
    decreases moves
  {
    if moves == [] {
    } else {
      var m := moves[0];
      MoveKeepsCoupled(s, cfg, batch, m);
      match m {
        case Store(i, keywords, aid, ids) =>
          PersistKeepsUnique(s.db, batch[i], s.phase[i].content, keywords, cfg.clientURL, aid, ids);
        case StoreElsewhere(item, content, keywords, aid, ids) =>
          PersistKeepsUnique(s.db, item, content, keywords, cfg.clientURL, aid, ids);
        case Other(step) => OtherKeepsUnique(s.db, cfg, step);
        case _ =>
      }
      NeverTwoForOneUrl(Apply(s, cfg, batch, m), cfg, batch, moves[1..]);
    }
  }

  // ---------------------------------------------------------------- completeness of a batch

  function ActiveUrls(db: Db): set<string> {
    set a | a in db.articles && ActiveArticle(db, a) :: db.articles[a].url
  }

  /** The urls of the articles that are neither inactive nor removed. */
  lemma ActiveUrlsMean(db: Db, url: string)
    ensures url in ActiveUrls(db) <==> exists x :: Effects.LiveArticle(db, x) && db.articles[x].url == url
  {
    forall x ensures Effects.LiveArticle(db, x) <==> ActiveArticle(db, x) {
    }
  }

  /** Nothing fails, nothing is removed or edited meanwhile, ids are new. */
  ghost predicate Smooth(s: Sys, cfg: Config, batch: seq<Item>, m: Move)
    requires Coupled(s, batch) && Enabled(s, m)
  {
    match m
    case Drop(_) => false
    case StoreElsewhere(_, _, _, _, _) => false
    case Other(step) => step.NewSource?
    case Store(i, _, aid, ids) =>
      && aid !in s.db.articles
      && PersistOutcome(s.db, batch[i], s.phase[i].content, cfg.clientURL, aid, ids) in {Saved, Duplicate}
    case _ => true
  }

  ghost predicate SmoothRun(s: Sys, cfg: Config, batch: seq<Item>, moves: seq<Move>)
    requires Coupled(s, batch) && Legal(s, cfg, batch, moves)
    decreases moves
  {
    moves == [] ||
    (Smooth(s, cfg, batch, moves[0]) &&
     (MoveKeepsCoupled(s, cfg, batch, moves[0]); SmoothRun(Apply(s, cfg, batch, moves[0]), cfg, batch, moves[1..])))
  }

  /** So far: the initial urls are there, the others come from dispatched items, and every ended item's
      url is there. */
  ghost predicate Progress(s: Sys, batch: seq<Item>, initial: set<string>)
    requires Coupled(s, batch)
  {
    && Removal.StatusInSync(s.db)
    && initial <= ActiveUrls(s.db)
    && (forall u :: u in ActiveUrls(s.db) && u !in initial ==> exists i :: 0 <= i < s.pool.next && batch[i].url == u)
    && (forall i :: i in s.phase && s.phase[i] == Ended ==> batch[i].url in ActiveUrls(s.db))
  }

  lemma StoreUrls(db: Db, item: Item, content: Html.Forest, keywords: seq<string>, clientURL: string, aid: string,
                  ids: seq<string>)
    requires Removal.StatusInSync(db) && aid !in db.articles
    requires PersistOutcome(db, item, content, clientURL, aid, ids) in {Saved, Duplicate}
    ensures Removal.StatusInSync(Persist(db, item, content, keywords, clientURL, aid, ids))
    ensures ActiveUrls(Persist(db, item, content, keywords, clientURL, aid, ids)) == ActiveUrls(db) + {item.url}
  {
    var later := Persist(db, item, content, keywords, clientURL, aid, ids);
    if PersistOutcome(db, item, content, clientURL, aid, ids) == Saved {
      assert later.articles == db.articles[aid := later.articles[aid]];
      assert later.articles[aid] == NewArticle(item, later.articles[aid].body, keywords);
      assert ActiveArticle(later, aid);
      assert forall a :: a in db.articles ==> (ActiveArticle(db, a) <==> ActiveArticle(later, a));
    } else {
      var a :| a in db.articles && Indexed(db.articles, a) && db.articles[a].url == item.url;
      assert ActiveArticle(db, a);
    }
  }

  lemma StoreKeepsProgress(s: Sys, cfg: Config, batch: seq<Item>, m: Move, initial: set<string>)
    requires Coupled(s, batch) && m.Store? && Enabled(s, m) && Smooth(s, cfg, batch, m) && Progress(s, batch, initial)
    requires Coupled(Apply(s, cfg, batch, m), batch)
    ensures Progress(Apply(s, cfg, batch, m), batch, initial)
  {
    StoreUrls(s.db, batch[m.i], s.phase[m.i].content, m.keywords, cfg.clientURL, m.aid, m.ids);
    assert 0 <= m.i < s.pool.next;
  }

  lemma QuietKeepsProgress(s: Sys, t: Sys, batch: seq<Item>, initial: set<string>)
    requires Coupled(s, batch) && Coupled(t, batch) && Progress(s, batch, initial)
    requires Removal.StatusInSync(t.db) && ActiveUrls(t.db) == ActiveUrls(s.db) && s.pool.next <= t.pool.next
    requires forall i :: i in t.phase && t.phase[i] == Ended ==>
      (i in s.phase && s.phase[i] == Ended) || batch[i].url in ActiveUrls(s.db)
    ensures Progress(t, batch, initial)
  {
  }

  lemma CheckKeepsProgress(s: Sys, cfg: Config, batch: seq<Item>, m: Move, initial: set<string>)
    requires Coupled(s, batch) && Enabled(s, m) && Progress(s, batch, initial) && m.Check?
    requires Coupled(Apply(s, cfg, batch, m), batch)
    ensures Progress(Apply(s, cfg, batch, m), batch, initial)
  {
    if Owner(s.db, batch[m.i].url).Some? {
      assert ActiveArticle(s.db, Owner(s.db, batch[m.i].url).value);
    }
    QuietKeepsProgress(s, Apply(s, cfg, batch, m), batch, initial);
  }

  /** A step of the pool ends no item, nor does a treatment. */
  lemma SchedEndsNone(s: Sys, cfg: Config, batch: seq<Item>, m: Move)
    requires Coupled(s, batch) && Enabled(s, m) && m.Sched?
    ensures var t := Apply(s, cfg, batch, m);
      && t.db == s.db && s.pool.next <= t.pool.next
      && forall i :: i in t.phase && t.phase[i] == Ended ==> i in s.phase && s.phase[i] == Ended
  {
    var t := Apply(s, cfg, batch, m);
    assert t.phase == s.phase || t.phase == s.phase[s.pool.next := Checking];
  }

  lemma TreatEndsNone(s: Sys, cfg: Config, batch: seq<Item>, m: Move)
    requires Coupled(s, batch) && Enabled(s, m) && m.Treat?
    ensures var t := Apply(s, cfg, batch, m);
      && t.db == s.db && s.pool.next <= t.pool.next
      && forall i :: i in t.phase && t.phase[i] == Ended ==> i in s.phase && s.phase[i] == Ended
  {
  }

  lemma SchedKeepsProgress(s: Sys, cfg: Config, batch: seq<Item>, m: Move, initial: set<string>)
    requires Coupled(s, batch) && Enabled(s, m) && Progress(s, batch, initial) && (m.Sched? || m.Treat?)
    requires Coupled(Apply(s, cfg, batch, m), batch)
    ensures Progress(Apply(s, cfg, batch, m), batch, initial)
  {
    if m.Sched? {
      SchedEndsNone(s, cfg, batch, m);
    } else {
      TreatEndsNone(s, cfg, batch, m);
    }
    QuietKeepsProgress(s, Apply(s, cfg, batch, m), batch, initial);
  }

  lemma NewSourceKeepsProgress(s: Sys, cfg: Config, batch: seq<Item>, m: Move, initial: set<string>)
    requires Coupled(s, batch) && Progress(s, batch, initial) && m.Other? && m.step.NewSource?
    requires Coupled(Apply(s, cfg, batch, m), batch)
    ensures Progress(Apply(s, cfg, batch, m), batch, initial)
  {
    assert ActiveUrls(Apply(s, cfg, batch, m).db) == ActiveUrls(s.db);
    QuietKeepsProgress(s, Apply(s, cfg, batch, m), batch, initial);
  }

  lemma MoveKeepsProgress(s: Sys, cfg: Config, batch: seq<Item>, m: Move, initial: set<string>)
    requires Coupled(s, batch) && Enabled(s, m) && Smooth(s, cfg, batch, m) && Progress(s, batch, initial)
    ensures Coupled(Apply(s, cfg, batch, m), batch)
    ensures Progress(Apply(s, cfg, batch, m), batch, initial)
  {
    MoveKeepsCoupled(s, cfg, batch, m);
    match m
    case Store(_, _, _, _) => StoreKeepsProgress(s, cfg, batch, m, initial);
    case Check(_) => CheckKeepsProgress(s, cfg, batch, m, initial);
    case Other(_) => NewSourceKeepsProgress(s, cfg, batch, m, initial);
    case _ => SchedKeepsProgress(s, cfg, batch, m, initial);
  }

  lemma {:induction false} RunKeepsProgress(s: Sys, cfg: Config, batch: seq<Item>, moves: seq<Move>,
                                            initial: set<string>)
    requires Coupled(s, batch) && Legal(s, cfg, batch, moves) && SmoothRun(s, cfg, batch, moves)
    requires Progress(s, batch, initial)
    ensures Progress(Exec(s, cfg, batch, moves), batch, initial)
    decreases moves
  {
    if moves == [] {
    } else {
      MoveKeepsProgress(s, cfg, batch, moves[0], initial);
      RunKeepsProgress(Apply(s, cfg, batch, moves[0]), cfg, batch, moves[1..], initial);
    }
  }

  /** When the batch returns, the active urls are exactly the initial ones plus those of the dispatched
      items: the whole batch, unless its context was cancelled. Repeats within the batch collapse. */
  lemma BatchIsComplete(db: Db, cfg: Config, workers: nat, batch: seq<Item>, moves: seq<Move>)
    requires Removal.StatusInSync(db)
    requires Coupled(Begin(db, workers, batch), batch)
    requires Legal(Begin(db, workers, batch), cfg, batch, moves)
    requires SmoothRun(Begin(db, workers, batch), cfg, batch, moves)
    requires Exec(Begin(db, workers, batch), cfg, batch, moves).pool.returned
    ensures var t := Exec(Begin(db, workers, batch), cfg, batch, moves);
      && t.pool.next <= |batch|
      && ActiveUrls(t.db) == ActiveUrls(db) + (set i | 0 <= i < t.pool.next :: batch[i].url)
      && (!t.pool.cancelled ==> t.pool.next == |batch|)
  {
    var s := Begin(db, workers, batch);
    RunKeepsProgress(s, cfg, batch, moves, ActiveUrls(db));
    ReturnedUrls(Exec(s, cfg, batch, moves), batch, ActiveUrls(db));
  }

  lemma ReturnedUrls(t: Sys, batch: seq<Item>, initial: set<string>)
    requires Coupled(t, batch) && Progress(t, batch, initial) && t.pool.returned
    ensures t.pool.next <= |batch| && (!t.pool.cancelled ==> t.pool.next == |batch|)
    ensures ActiveUrls(t.db) == initial + (set i | 0 <= i < t.pool.next :: batch[i].url)
  {
    forall i | 0 <= i < t.pool.next ensures batch[i].url in ActiveUrls(t.db) {
      assert i in t.pool.log;
    }
  }

  /** Any batch can begin. */
  lemma BatchBegins(db: Db, workers: nat, batch: seq<Item>)
    ensures Coupled(Begin(db, workers, batch), batch)
  {
  }
}

/** One tick of the discovery sweep with one worker, and why it may be repeated: the watermark it
    leaves is not consulted, deduplication by url is. */
module Sweeps {
  import opened Options
  import Html
  import opened Tables
  import Stores
  import opened Discovery
  import Pool

  datatype SweepEnd = Aborted | Skipped | Done | MarkFailed

  /** The throttle: a negative cap is none. */
  function Capped<T>(items: seq<T>, cap: int): seq<T> {
    if 0 <= cap < |items| then items[..cap] else items
  }

  /** DiscoveryRunner.Run. appOn is what reading the switch and the sources gave (None: it failed), fetched
      what each source's feed gave. Unless the application is on, the sweep touches nothing. */
  method Sweep(store: Stores.Store, cfg: Config, appOn: Option<bool>, fetched: seq<Option<seq<Job>>>, cap: int,
               mark: int,
               now: int, markFails: bool)
    returns (r: SweepEnd, newMark: int)
    requires store.Consistent()
    modifies store
    ensures store.Consistent()
    ensures r == match appOn
                 case None => Aborted
                 case Some(on) => if !on then Skipped else if markFails then MarkFailed else Done
    ensures newMark == if r == Done then now else mark
    ensures r == Aborted || r == Skipped ==> store.Contents() == old(store.Contents())
    ensures (r == Done || r == MarkFailed) && store.UpSince(old(store.served)) ==>
      store.Contents() == DiscoverAll(old(store.Contents()), cfg,
        Capped(Pool.Gather(Pool.Upto(|fetched|), fetched), cap))
  {
    newMark := mark;
    if appOn.None? {
      return Aborted, mark;
    }
    if !appOn.value {
      return Skipped, mark;
    }
    var all := Pool.FetchSequentially(fetched);
    if cap >= 0 && |all| > cap {
      all := all[..cap];
    }
    ProcessSequentially(store, cfg, all);
    if markFails {
      return MarkFailed, mark;
    }
    r, newMark := Done, now;
  }

  /** The throttle cuts the sweep after its first cap items, and only then. */
  lemma CappedMeans<T>(items: seq<T>, cap: int)
    ensures Capped(items, cap) <= items
    ensures cap < 0 ==> Capped(items, cap) == items
    ensures cap >= 0 ==> |Capped(items, cap)| == if |items| <= cap then |items| else cap
  {
  }

  /** A sweep of no items does nothing; and each item's turn is the pipeline for it, in the state that the
      turns before it left. */
  lemma TurnsMean(db: Db, cfg: Config, jobs: seq<Job>, j: Job)
    ensures DiscoverAll(db, cfg, []) == db
    ensures var treated := !j.treating.parse && !j.treating.render;
      var ids := if j.assigning.parse || j.assigning.render then [] else j.given;
      DiscoverAll(db, cfg, jobs + [j])
        == Discover(DiscoverAll(db, cfg, jobs), cfg, j.item, j.keywords, treated, j.aid, ids)
  {
    assert (jobs + [j])[..|jobs|] == jobs;
  }

  /** After its turn the item's url is there exactly when it was before, or its article was saved. */
  lemma TurnStoresExactly(db: Db, cfg: Config, j: Job)
    ensures var body := PreparedBody(db, cfg, j.item.content, !Html.Faulty(j.treating));
      var ids := Numbers(j.given, j.assigning);
      Owned(DiscoverJob(db, cfg, j, !Html.Faulty(j.treating)), j.item.url) <==>
        || Owned(db, j.item.url)
        || (j.keywords.Some? && PersistOutcome(db, j.item, body, cfg.clientURL, j.aid, ids) == Saved)
  {
    var later := DiscoverJob(db, cfg, j, !Html.Faulty(j.treating));
    if Owned(db, j.item.url) {
      OwnedStays(db, cfg, j, j.item.url);
    } else if later != db {
      assert Owns(later, j.aid, j.item.url);
    }
  }

  // ---------------------------------------------------------------- sweeping again

  ghost predicate Owned(db: Db, url: string) {
    Owner(db, url).Some?
  }

  lemma OwnedStays(db: Db, cfg: Config, j: Job, url: string)
    requires Owned(db, url)
    ensures Owned(DiscoverJob(db, cfg, j, !Html.Faulty(j.treating)), url)
  {
    var later := DiscoverJob(db, cfg, j, !Html.Faulty(j.treating));
    var a := Owner(db, url).value;
    assert Owns(db, a, url) && Owns(later, a, url);
  }

  lemma {:induction false} OwnedStaysAll(db: Db, cfg: Config, jobs: seq<Job>, url: string)
    requires Owned(db, url)
    ensures Owned(DiscoverAll(db, cfg, jobs), url)
  {
    if jobs == [] {
    } else {
      OwnedStaysAll(db, cfg, jobs[..|jobs| - 1], url);
      OwnedStays(DiscoverAll(db, cfg, jobs[..|jobs| - 1]), cfg, jobs[|jobs| - 1], url);
    }
  }

  lemma {:induction false} DiscoverAllAppend(db: Db, cfg: Config, front: seq<Job>, back: seq<Job>)
    ensures DiscoverAll(db, cfg, front + back) == DiscoverAll(DiscoverAll(db, cfg, front), cfg, back)
  {
    if back == [] {
      assert front + back == front;
    } else {
      var n := |back| - 1;
      assert (front + back)[..|front + back| - 1] == front + back[..n];
      DiscoverAllAppend(db, cfg, front, back[..n]);
    }
  }

  /** The sweep dropped nothing: when its turn had passed, each article was there. */
  ghost predicate Complete(db: Db, cfg: Config, jobs: seq<Job>) {
    forall i :: 0 <= i < |jobs| ==> Owned(DiscoverAll(db, cfg, jobs[..i + 1]), jobs[i].item.url)
  }

  lemma CompleteOwns(db: Db, cfg: Config, jobs: seq<Job>, i: nat)
    requires Complete(db, cfg, jobs) && i < |jobs|
    ensures Owned(DiscoverAll(db, cfg, jobs), jobs[i].item.url)
  {
    var front, back := jobs[..i + 1], jobs[i + 1..];
    assert jobs == front + back;
    DiscoverAllAppend(db, cfg, front, back);
    OwnedStaysAll(DiscoverAll(db, cfg, front), cfg, back, jobs[i].item.url);
  }

  lemma {:induction false} OwnedChangesNothing(db: Db, cfg: Config, again: seq<Job>)
    requires forall i :: 0 <= i < |again| ==> Owned(db, again[i].item.url)
    ensures DiscoverAll(db, cfg, again) == db
  {
    if again == [] {
    } else {
      OwnedChangesNothing(db, cfg, again[..|again| - 1]);
    }
  }

  /** Sweeping feeds that still list the same articles stores none of them a second time, whatever the
      outside would answer for them now; repetition inside a sweep included. */
  lemma SecondSweepChangesNothing(db: Db, cfg: Config, jobs: seq<Job>, again: seq<Job>)
    requires Complete(db, cfg, jobs)
    requires forall k :: 0 <= k < |again| ==> exists i :: 0 <= i < |jobs| && jobs[i].item.url == again[k].item.url
    ensures DiscoverAll(db, cfg, jobs + again) == DiscoverAll(db, cfg, jobs)
  {
    forall k | 0 <= k < |again| ensures Owned(DiscoverAll(db, cfg, jobs), again[k].item.url) {
      var i :| 0 <= i < |jobs| && jobs[i].item.url == again[k].item.url;
      CompleteOwns(db, cfg, jobs, i);
    }
    DiscoverAllAppend(db, cfg, jobs, again);
    OwnedChangesNothing(DiscoverAll(db, cfg, jobs), cfg, again);
  }
}

/** The batch at the grain of transactions comes to an end: while it has not returned it can always go on
    by itself, without any failure, and its own moves are bounded. */
module Completion {
  import opened Sequences
  import Html
  import OutboundLinks
  import opened Tables
  import opened Interleaving
  import Removal
  import P = Pool

  // ---------------------------------------------------------------- work

  /** The transactions an item still has before it. */
  function Cost(phase: map<nat, Phase>, i: nat): nat {
    if i !in phase then 0
    else match phase[i] case Checking => 3 case Treating => 2 case Ready(_) => 1 case Ended => 0
  }

  function PhaseWork(phase: map<nat, Phase>, k: nat): nat {
    if k == 0 then 0 else PhaseWork(phase, k - 1) + Cost(phase, k - 1)
  }

  /** The pool's work, and three transactions for each item. */
  function Total(s: Sys): int {
    P.Work(s.pool) + 3 * (s.pool.n - s.pool.next) + PhaseWork(s.phase, s.pool.next)
  }

  /** The moves of the batch itself: not a cancellation, nor anybody else's transaction. */
  predicate Own(m: Move) {
    match m
    case Sched(p) => p != P.Cancel
    case StoreElsewhere(_, _, _, _, _) => false
    case Other(_) => false
    case _ => true
  }

  lemma {:induction false} PhaseChanged(phase: map<nat, Phase>, k: nat, i: nat, p: Phase)
    ensures PhaseWork(phase[i := p], k)
         == PhaseWork(phase, k) + if i < k then Cost(phase[i := p], i) - Cost(phase, i) else 0
  {
    if k == 0 {
    } else {
      PhaseChanged(phase, k - 1, i, p);
    }
  }

  lemma DispatchDoesWork(s: Sys, batch: seq<Item>)
    requires Coupled(s, batch) && P.Enabled(s.pool, P.Dispatch)
    ensures Total(s.(pool := P.Step(s.pool, P.Dispatch), phase := s.phase[s.pool.next := Checking])) <= Total(s) - 1
  {
    P.StepDoesWork(s.pool, P.Dispatch);
    PhaseChanged(s.phase, s.pool.next, s.pool.next, Checking);
  }

  /** The other steps of the pool change no phase. */
  lemma StepDoesWork(s: Sys, batch: seq<Item>, p: P.PoolStep)
    requires Coupled(s, batch) && P.Enabled(s.pool, p) && !p.Dispatch?
    ensures Total(s.(pool := P.Step(s.pool, p))) <= Total(s) - if p == P.Cancel then 0 else 1
  {
    P.StepDoesWork(s.pool, p);
  }

  /** A transaction brings its item nearer to the end. */
  lemma TransactionDoesWork(s: Sys, i: nat, p: Phase, db: Db)
    requires i < s.pool.next && Cost(s.phase[i := p], i) < Cost(s.phase, i)
    ensures Total(s.(phase := s.phase[i := p], db := db)) <= Total(s) - 1
  {
    PhaseChanged(s.phase, s.pool.next, i, p);
  }

  lemma MoveDoesWork(s: Sys, cfg: Config, batch: seq<Item>, m: Move)
    requires Coupled(s, batch) && Enabled(s, m)
    ensures Total(Apply(s, cfg, batch, m)) <= Total(s) - if Own(m) then 1 else 0
  {
    var t := Apply(s, cfg, batch, m);
    match m
    case Sched(p) =>
      if p.Dispatch? {
        DispatchDoesWork(s, batch);
      } else {
        StepDoesWork(s, batch, p);
      }
    case Check(i) => TransactionDoesWork(s, i, t.phase[i], t.db);
    case Treat(i, _) => TransactionDoesWork(s, i, t.phase[i], t.db);
    case Drop(i) => TransactionDoesWork(s, i, t.phase[i], t.db);
    case Store(i, _, _, _) => TransactionDoesWork(s, i, t.phase[i], t.db);
    case StoreElsewhere(_, _, _, _, _) =>
    case Other(_) =>
  }

  lemma WorkIsNatural(s: Sys, batch: seq<Item>)
    requires Coupled(s, batch)
    ensures Total(s) >= 0
  {
  }

  function OwnMoves(moves: seq<Move>): nat {
    if moves == [] then 0 else OwnMoves(moves[1..]) + if Own(moves[0]) then 1 else 0
  }

  lemma {:induction false} RunDoesWork(s: Sys, cfg: Config, batch: seq<Item>, moves: seq<Move>)
    requires Coupled(s, batch) && Legal(s, cfg, batch, moves)
    ensures Total(Exec(s, cfg, batch, moves)) + OwnMoves(moves) <= Total(s)
    decreases moves
  {
    if moves == [] {
    } else {
      MoveKeepsCoupled(s, cfg, batch, moves[0]);
      MoveDoesWork(s, cfg, batch, moves[0]);
      RunDoesWork(Apply(s, cfg, batch, moves[0]), cfg, batch, moves[1..]);
    }
  }

  /** Whatever else happens, a batch of n items makes at most 6n + 2 moves of its own. */
  lemma MovesAreBounded(db: Db, cfg: Config, workers: nat, batch: seq<Item>, moves: seq<Move>)
    requires Coupled(Begin(db, workers, batch), batch) && Legal(Begin(db, workers, batch), cfg, batch, moves)
    ensures OwnMoves(moves) <= 6 * |batch| + 2
  {
    var s := Begin(db, workers, batch);
    RunDoesWork(s, cfg, batch, moves);
    WorkIsNatural(Exec(s, cfg, batch, moves), batch);
  }

  // ---------------------------------------------------------------- fresh ids

  lemma {:induction false} LongerThanAll(used: set<string>) returns (n: nat)
    ensures n > 0 && forall x :: x in used ==> |x| < n
    decreases used
  {
    if used == {} {
      n := 1;
    } else {
      var x :| x in used;
      n := LongerThanAll(used - {x});
      n := if n > |x| then n else |x| + 1;
    }
  }

  lemma {:induction false} FreshIds(used: set<string>, n: nat) returns (ids: seq<string>)
    ensures |ids| == n && Distinct(ids) && forall id :: id in ids ==> id != "" && id !in used
  {
    if n == 0 {
      ids := [];
    } else {
      ids := FreshIds(used, n - 1);
      var length := LongerThanAll(used + Elements(ids));
      var id := seq(length, _ => 'f');
      assert |id| == length;
      ids := ids + [id];
    }
  }

  lemma FreshKeysAreFree(rows: Rows, hrefs: seq<string>, ids: seq<string>, clientURL: string)
    requires |ids| == |hrefs| && Distinct(ids) && forall id :: id in ids ==> id !in rows
    ensures KeysFree(rows, OutboundLinks.LinksFor(hrefs, ids, clientURL))
  {
    forall l | l in OutboundLinks.LinksFor(hrefs, ids, clientURL) ensures l.id !in rows {
      var i :| 0 <= i < |hrefs| && OutboundLinks.LinksFor(hrefs, ids, clientURL)[i] == l;
      assert ids[i] in ids;
    }
  }

  // ---------------------------------------------------------------- going on

  ghost predicate SourcesThere(db: Db, batch: seq<Item>) {
    forall i :: 0 <= i < |batch| ==> ActiveSource(db, batch[i].source)
  }

  /** The next transaction of a running item; with an active source and new ids its persist does not fail. */
  lemma ItemGoesOn(s: Sys, cfg: Config, batch: seq<Item>, i: nat) returns (m: Move)
    requires Coupled(s, batch) && i in s.phase && s.phase[i] != Ended
    ensures Enabled(s, m) && Own(m) && !m.Drop? && (SourcesThere(s.db, batch) ==> Smooth(s, cfg, batch, m))
  {
    match s.phase[i]
    case Checking => m := Check(i);
    case Treating => m := Treat(i, true);
    case Ready(content) =>
      var aids := FreshIds(s.db.articles.Keys, 1);
      var ids := FreshIds(s.db.links.Keys, |Html.Collected(content)|);
      FreshKeysAreFree(s.db.links, Html.Collected(content), ids, cfg.clientURL);
      assert aids[0] in aids;
      m := Store(i, [], aids[0], ids);
  }

  /** Until it has returned, a batch with a worker always has a move of its own; and while the sources of
      its items are active, one without any failure. */
  lemma BatchGoesOn(s: Sys, cfg: Config, batch: seq<Item>) returns (m: Move)
    requires Coupled(s, batch) && s.pool.workers >= 1 && !s.pool.returned
    ensures Enabled(s, m) && Own(m) && !m.Drop? && (SourcesThere(s.db, batch) ==> Smooth(s, cfg, batch, m))
  {
    var p := P.CanGoOn(s.pool);
    if p.Finish? && s.phase[p.i] != Ended {
      m := ItemGoesOn(s, cfg, batch, p.i);
    } else {
      m := Sched(p);
    }
  }

  /** So a run that cannot be continued has returned. */
  lemma StuckBatchReturned(db: Db, cfg: Config, workers: nat, batch: seq<Item>, moves: seq<Move>)
    requires workers >= 1 && Coupled(Begin(db, workers, batch), batch)
    requires Legal(Begin(db, workers, batch), cfg, batch, moves)
    requires forall m :: Own(m) && !m.Drop? ==> !Enabled(Exec(Begin(db, workers, batch), cfg, batch, moves), m)
    ensures Exec(Begin(db, workers, batch), cfg, batch, moves).pool.returned
  {
    var t := Exec(Begin(db, workers, batch), cfg, batch, moves);
    WorkersStay(Begin(db, workers, batch), cfg, batch, moves);
    if !t.pool.returned {
      var m := BatchGoesOn(t, cfg, batch);
    }
  }

  lemma {:induction false} WorkersStay(s: Sys, cfg: Config, batch: seq<Item>, moves: seq<Move>)
    requires Coupled(s, batch) && Legal(s, cfg, batch, moves)
    ensures Exec(s, cfg, batch, moves).pool.workers == s.pool.workers
    decreases moves
  {
    if moves == [] {
    } else {
      MoveKeepsCoupled(s, cfg, batch, moves[0]);
      WorkersStay(Apply(s, cfg, batch, moves[0]), cfg, batch, moves[1..]);
    }
  }

  lemma OwnMoveKeepsSources(s: Sys, cfg: Config, batch: seq<Item>, m: Move)
    requires Coupled(s, batch) && Enabled(s, m) && Own(m)
    ensures Apply(s, cfg, batch, m).db.sources == s.db.sources
    ensures s.pool.cancelled == Apply(s, cfg, batch, m).pool.cancelled
    ensures s.pool.workers == Apply(s, cfg, batch, m).pool.workers
  {
  }

  /** From any state of a batch there is a way to the end without failure, by moves of its own. */
  lemma {:induction false} Finishing(s: Sys, cfg: Config, batch: seq<Item>) returns (moves: seq<Move>)
    requires Coupled(s, batch) && s.pool.workers >= 1 && SourcesThere(s.db, batch)
    ensures Legal(s, cfg, batch, moves) && SmoothRun(s, cfg, batch, moves)
    ensures Exec(s, cfg, batch, moves).pool.returned && Exec(s, cfg, batch, moves).pool.cancelled == s.pool.cancelled
    decreases Total(s)
  {
    if s.pool.returned {
      moves := [];
    } else {
      var m := BatchGoesOn(s, cfg, batch);
      var t := Apply(s, cfg, batch, m);
      MoveKeepsCoupled(s, cfg, batch, m);
      MoveDoesWork(s, cfg, batch, m);
      WorkIsNatural(t, batch);
      OwnMoveKeepsSources(s, cfg, batch, m);
      var rest := Finishing(t, cfg, batch);
      moves := [m] + rest;
      assert moves[1..] == rest;
    }
  }

  /** A batch of items of active sources can run to its end, and then every one of its urls is there. */
  lemma BatchCanFinish(db: Db, cfg: Config, workers: nat, batch: seq<Item>) returns (moves: seq<Move>)
    requires workers >= 1 && Removal.StatusInSync(db) && SourcesThere(db, batch)
    ensures Coupled(Begin(db, workers, batch), batch)
    ensures Legal(Begin(db, workers, batch), cfg, batch, moves)
    ensures SmoothRun(Begin(db, workers, batch), cfg, batch, moves)
    ensures var t := Exec(Begin(db, workers, batch), cfg, batch, moves);
      t.pool.returned && ActiveUrls(t.db) == ActiveUrls(db) + (set i | 0 <= i < |batch| :: batch[i].url)
  {
    BatchBegins(db, workers, batch);
    moves := Finishing(Begin(db, workers, batch), cfg, batch);
    BatchIsComplete(db, cfg, workers, batch, moves);
  }
}

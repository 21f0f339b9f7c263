/** The bounded worker pool that both the discovery sink and the feed sweep use: a semaphore channel,
    a wait group, and a dispatch loop that a cancelled context may leave early. */
module Pool {
  import opened Options
  import opened Sequences

  /** slots is how many places of the semaphore are taken, waiting the wait group's counter. An item
      runs, gives its slot back, and only then counts down the wait group: leaving is in between.
      log is the order in which items finished. */
  datatype Pool = Pool(workers: nat, n: nat, next: nat, slots: int, waiting: int,
                       running: set<nat>, leaving: set<nat>, log: seq<nat>,
                       cancelled: bool, stopped: bool, returned: bool)

  datatype PoolStep = Dispatch | Finish(i: nat) | Leave(i: nat) | Cancel | Stop | Return

  function Start(workers: nat, n: nat): Pool {
    Pool(workers, n, 0, 0, 0, {}, {}, [], false, false, false)
  }

  /** A cancelled context does not force the loop out: with a free slot, select may still take it. */
  predicate Enabled(p: Pool, s: PoolStep) {
    match s
    case Dispatch => !p.stopped && !p.returned && p.next < p.n && p.slots < p.workers
    case Finish(i) => i in p.running
    case Leave(i) => i in p.leaving
    case Cancel => true
    case Stop => p.cancelled && !p.stopped && !p.returned && p.next < p.n
    case Return => (p.stopped || p.next == p.n) && p.waiting == 0 && !p.returned
  }

  function Step(p: Pool, s: PoolStep): Pool {
    match s
    case Dispatch =>
      p.(next := p.next + 1, slots := p.slots + 1, waiting := p.waiting + 1, running := p.running + {p.next})
    case Finish(i) =>
      p.(slots := p.slots - 1, running := p.running - {i}, leaving := p.leaving + {i}, log := p.log + [i])
    case Leave(i) => p.(waiting := p.waiting - 1, leaving := p.leaving - {i})
    case Cancel => p.(cancelled := true)
    case Stop => p.(stopped := true)
    case Return => p.(returned := true)
  }

  /** A run: every step is enabled when it is taken. */
  predicate Legal(p: Pool, steps: seq<PoolStep>)
    decreases steps
  {
    steps == [] || (Enabled(p, steps[0]) && Legal(Step(p, steps[0]), steps[1..]))
  }

  function Exec(p: Pool, steps: seq<PoolStep>): Pool
    decreases steps
  {
    if steps == [] then p else Exec(Step(p, steps[0]), steps[1..])
  }

  ghost predicate Inv(p: Pool) {
    && p.slots == |p.running| <= p.workers
    && p.waiting == |p.running| + |p.leaving|
    && p.next <= p.n
    && Distinct(p.log)
    && (forall i :: i in p.running ==> i !in p.log)
    && (forall i :: i in p.leaving ==> i in p.log)
    && (forall i :: i in p.running || i in p.log <==> 0 <= i < p.next)
    && (p.stopped ==> p.cancelled)
    && (p.returned ==> p.waiting == 0 && (p.stopped || p.next == p.n))
  }

  lemma FinishKeepsInv(p: Pool, i: nat)
    requires Inv(p) && i in p.running
    ensures Inv(Step(p, Finish(i)))
  {
    assert i !in p.leaving && i !in p.log;
    assert |p.running - {i}| == |p.running| - 1;
    assert |p.leaving + {i}| == |p.leaving| + 1;
    assert forall j :: j in p.log + [i] <==> j in p.log || j == i;
  }

  lemma DispatchKeepsInv(p: Pool)
    requires Inv(p) && Enabled(p, Dispatch)
    ensures Inv(Step(p, Dispatch))
  {
    assert p.next !in p.running && p.next !in p.log;
    assert |p.running + {p.next}| == |p.running| + 1;
  }

  lemma StepKeepsInv(p: Pool, s: PoolStep)
    requires Inv(p) && Enabled(p, s)
    ensures Inv(Step(p, s))
  {
    match s
    case Dispatch => DispatchKeepsInv(p);
    case Finish(i) => FinishKeepsInv(p, i);
    case Leave(i) => assert |p.leaving - {i}| == |p.leaving| - 1;
    case Cancel =>
    case Stop =>
    case Return =>
  }

  lemma {:induction false} RunKeepsInv(p: Pool, steps: seq<PoolStep>)
    requires Inv(p) && Legal(p, steps)
    ensures Inv(Exec(p, steps))
    ensures Exec(p, steps).workers == p.workers && Exec(p, steps).n == p.n
    decreases steps
  {
    if steps == [] {
    } else {
      StepKeepsInv(p, steps[0]);
      RunKeepsInv(Step(p, steps[0]), steps[1..]);
    }
  }

  function Upto(k: nat): seq<nat> {
    seq(k, i => i)
  }

  lemma {:induction false} AtMostOnce(s: seq<nat>, i: nat)
    requires Distinct(s)
    ensures multiset(s)[i] <= 1
  {
    if s == [] {
    } else {
      AtMostOnce(s[1..], i);
      assert s == [s[0]] + s[1..];
      assert multiset(s) == multiset([s[0]]) + multiset(s[1..]);
      if i == s[0] { assert i !in s[1..]; }
    }
  }

  lemma OneEach(s: seq<nat>, t: seq<nat>)
    requires Distinct(s) && Distinct(t)
    requires forall i :: i in s <==> i in t
    ensures multiset(s) == multiset(t)
  {
    forall i: nat ensures multiset(s)[i] == multiset(t)[i] {
      AtMostOnce(s, i);
      AtMostOnce(t, i);
      assert i in multiset(s) <==> i in s;
      assert i in multiset(t) <==> i in t;
    }
  }

  /** At every moment of every run at most workers items run, and once the pool has returned nothing
      is in flight, each dispatched item ran exactly once, and the dispatched ones are a prefix: all
      of them unless the context was cancelled. */
  lemma PoolIsBounded(workers: nat, n: nat, steps: seq<PoolStep>)
    requires Legal(Start(workers, n), steps)
    ensures var p := Exec(Start(workers, n), steps);
      && |p.running| <= workers
      && (p.returned ==> p.running == {} && p.leaving == {} && multiset(p.log) == multiset(Upto(p.next)))
      && (p.returned ==> p.next <= n && (p.next == n || p.cancelled))
  {
    RunKeepsInv(Start(workers, n), steps);
    var p := Exec(Start(workers, n), steps);
    if p.returned {
      forall i ensures i in Upto(p.next) <==> 0 <= i < p.next {
        if 0 <= i < p.next { assert Upto(p.next)[i] == i; }
      }
      OneEach(p.log, Upto(p.next));
    }
  }

  function Dispatches(k: nat): seq<PoolStep> {
    seq(k, i => Dispatch)
  }

  lemma {:induction false} DispatchesFill(p: Pool, k: nat)
    requires !p.stopped && !p.returned && p.next + k <= p.n && 0 <= p.slots && p.slots + k <= p.workers
    ensures Legal(p, Dispatches(k)) && Exec(p, Dispatches(k)).slots == p.slots + k
    decreases k
  {
    if k > 0 {
      assert Dispatches(k)[1..] == Dispatches(k - 1);
      DispatchesFill(Step(p, Dispatch), k - 1);
    }
  }

  /** And the bound is reached: that many items, if there are so many, may run at one moment. */
  lemma BoundIsReached(workers: nat, n: nat, k: nat) returns (steps: seq<PoolStep>)
    requires k <= workers && k <= n
    ensures Legal(Start(workers, n), steps) && |Exec(Start(workers, n), steps).running| == k
  {
    steps := Dispatches(k);
    DispatchesFill(Start(workers, n), k);
    RunKeepsInv(Start(workers, n), steps);
  }

  // ---------------------------------------------------------------- progress

  /** Until it has returned, a pool with a worker can always go on by itself. */
  lemma CanGoOn(p: Pool) returns (s: PoolStep)
    requires Inv(p) && p.workers >= 1 && !p.returned
    ensures s != Cancel && Enabled(p, s)
  {
    if i :| i in p.running {
      s := Finish(i);
    } else if i :| i in p.leaving {
      s := Leave(i);
    } else if p.next < p.n && !p.stopped {
      s := Dispatch;
    } else {
      s := Return;
    }
  }

  /** What is still to do: three steps for an item not dispatched, two for a running one, one for one
      that is leaving, one each for stopping and returning. */
  function Work(p: Pool): int {
    3 * (p.n - p.next) + 2 * |p.running| + |p.leaving| + (if p.stopped then 0 else 1) + (if p.returned then 0 else 1)
  }

  lemma StepDoesWork(p: Pool, s: PoolStep)
    requires Inv(p) && Enabled(p, s)
    ensures Work(Step(p, s)) <= Work(p) - if s == Cancel then 0 else 1
  {
    match s
    case Dispatch => assert |p.running + {p.next}| == |p.running| + 1;
    case Finish(i) =>
      assert |p.running - {i}| == |p.running| - 1;
      assert |p.leaving + {i}| <= |p.leaving| + 1;
    case Leave(i) => assert |p.leaving - {i}| == |p.leaving| - 1;
    case Cancel =>
    case Stop =>
    case Return =>
  }

  /** The steps of the pool itself: all but the cancellations from outside. */
  function OwnSteps(steps: seq<PoolStep>): nat {
    if steps == [] then 0 else OwnSteps(steps[1..]) + if steps[0] == Cancel then 0 else 1
  }

  lemma {:induction false} RunDoesWork(p: Pool, steps: seq<PoolStep>)
    requires Inv(p) && Legal(p, steps)
    ensures Work(Exec(p, steps)) + OwnSteps(steps) <= Work(p)
    decreases steps
  {
    if steps == [] {
    } else {
      StepKeepsInv(p, steps[0]);
      StepDoesWork(p, steps[0]);
      RunDoesWork(Step(p, steps[0]), steps[1..]);
    }
  }

  /** So Process returns: no run has more than 3n + 2 steps of its own, and one that cannot be continued
      has returned. */
  lemma PoolReturns(workers: nat, n: nat, steps: seq<PoolStep>)
    requires workers >= 1 && Legal(Start(workers, n), steps)
    ensures OwnSteps(steps) <= 3 * n + 2
    ensures (forall s :: s != Cancel ==> !Enabled(Exec(Start(workers, n), steps), s)) ==>
      Exec(Start(workers, n), steps).returned
  {
    RunKeepsInv(Start(workers, n), steps);
    RunDoesWork(Start(workers, n), steps);
    var p := Exec(Start(workers, n), steps);
    if !p.returned {
      var s := CanGoOn(p);
    }
  }

  // ---------------------------------------------------------------- merging results

  predicate Within(order: seq<nat>, k: nat) {
    forall j :: 0 <= j < |order| ==> order[j] < k
  }

  /** What one fetch adds to the merge: a failed source (None) adds nothing. */
  function Fetched<T>(r: Option<seq<T>>): seq<T> {
    match r case Some(items) => items case None => []
  }

  /** The results of the given items, appended one after another. */
  function Gather<T>(order: seq<nat>, results: seq<Option<seq<T>>>): seq<T>
    requires Within(order, |results|)
  {
    if order == [] then []
    else Gather(order[..|order| - 1], results) + Fetched(results[order[|order| - 1]])
  }

  lemma {:induction false} GatherAppend<T>(a: seq<nat>, b: seq<nat>, results: seq<Option<seq<T>>>)
    requires Within(a, |results|) && Within(b, |results|)
    ensures Gather(a + b, results) == Gather(a, results) + Gather(b, results)
  {
    if b == [] {
      assert a + b == a;
    } else {
      var front, last := b[..|b| - 1], b[|b| - 1];
      assert Gather(a + b, results) == Gather(a + front, results) + Fetched(results[last]) by {
        assert (a + b)[..|a + b| - 1] == a + front;
      }
      assert Gather(a + front, results) == Gather(a, results) + Gather(front, results) by {
        GatherAppend(a, front, results);
      }
      Regroup(Gather(a, results), Gather(front, results), Fetched(results[last]));
    }
  }

  lemma Regroup<T>(x: seq<T>, y: seq<T>, z: seq<T>)
    ensures x + y + z == x + (y + z)
  {
  }

  lemma GatherLast<T>(front: seq<nat>, last: nat, results: seq<Option<seq<T>>>)
    requires Within(front, |results|) && last < |results|
    ensures Gather(front + [last], results) == Gather(front, results) + Fetched(results[last])
  {
    assert (front + [last])[..|front|] == front;
  }

  /** What is gathered: nothing from no items; then the items of each source fetched, and nothing of one that
      failed. */
  lemma GatherMeans<T>(front: seq<nat>, last: nat, results: seq<Option<seq<T>>>)
    requires Within(front, |results|) && last < |results|
    ensures Gather([], results) == []
    ensures results[last].Some? ==> Gather(front + [last], results) == Gather(front, results) + results[last].value
    ensures results[last].None? ==> Gather(front + [last], results) == Gather(front, results)
  {
    GatherLast(front, last, results);
  }

  lemma GatherWithout<T>(a: seq<nat>, x: nat, b: seq<nat>, results: seq<Option<seq<T>>>)
    requires Within(a, |results|) && x < |results| && Within(b, |results|)
    ensures multiset(Gather(a + [x] + b, results)) == multiset(Gather(a + b, results)) + multiset(Fetched(results[x]))
  {
    GatherAppend(a + [x], b, results);
    GatherLast(a, x, results);
    GatherAppend(a, b, results);
  }

  /** A sequence without its element at j. */
  lemma WithoutOne(t: seq<nat>, j: nat)
    requires j < |t|
    ensures multiset(t) == multiset(t[..j] + t[j + 1..]) + multiset{t[j]}
  {
    assert t == t[..j] + ([t[j]] + t[j + 1..]);
  }

  lemma TakeOut(s: seq<nat>, t: seq<nat>) returns (j: nat)
    requires multiset(s) == multiset(t) && s != []
    ensures j < |t| && t[j] == s[|s| - 1]
    ensures multiset(s[..|s| - 1]) == multiset(t[..j] + t[j + 1..])
  {
    var n := |s| - 1;
    assert s[n] in multiset(t);
    j :| 0 <= j < |t| && t[j] == s[n];
    WithoutOne(t, j);
    WithoutOne(s, n);
    assert s[..n] + s[n + 1..] == s[..n];
    TakeFromBoth(multiset(s[..n]), multiset(t[..j] + t[j + 1..]), s[n]);
  }

  lemma TakeFromBoth(a: multiset<nat>, b: multiset<nat>, x: nat)
    requires a + multiset{x} == b + multiset{x}
    ensures a == b
  {
    assert a == (a + multiset{x}) - multiset{x};
    assert b == (b + multiset{x}) - multiset{x};
  }

  /** Merging does not depend on the order of completion, as a multiset. */
  lemma {:induction false} GatherOrder<T>(s: seq<nat>, t: seq<nat>, results: seq<Option<seq<T>>>)
    requires multiset(s) == multiset(t)
    requires Within(s, |results|) && Within(t, |results|)
    ensures multiset(Gather(s, results)) == multiset(Gather(t, results))
  {
    if s == [] {
      assert |multiset(t)| == 0;
    } else {
      var j := TakeOut(s, t);
      var a, b := t[..j], t[j + 1..];
      assert t == a + [t[j]] + b;
      GatherWithout(a, t[j], b, results);
      GatherOrder(s[..|s| - 1], a + b, results);
    }
  }

  /** The sweep over all sources merges, in whatever order the fetches finish, the same items with
      the same multiplicity as fetching the dispatched sources one after another. */
  lemma MergeIsSequential<T>(workers: nat, results: seq<Option<seq<T>>>, steps: seq<PoolStep>)
    requires Legal(Start(workers, |results|), steps) && Exec(Start(workers, |results|), steps).returned
    ensures var p := Exec(Start(workers, |results|), steps);
      && p.next <= |results| && (!p.cancelled ==> p.next == |results|)
      && Within(p.log, |results|)
      && multiset(Gather(p.log, results)) == multiset(Gather(Upto(p.next), results))
  {
    PoolIsBounded(workers, |results|, steps);
    RunKeepsInv(Start(workers, |results|), steps);
    var p := Exec(Start(workers, |results|), steps);
    assert forall j :: 0 <= j < |p.log| ==> p.log[j] in p.log;
    GatherOrder(p.log, Upto(p.next), results);
  }

  /** In order of the sources: nothing from none, and each adds its items, if it was fetched. */
  lemma GatherUptoMeans<T>(k: nat, results: seq<Option<seq<T>>>)
    requires k < |results|
    ensures Gather(Upto(0), results) == []
    ensures Gather(Upto(k + 1), results)
         == Gather(Upto(k), results) + if results[k].Some? then results[k].value else []
  {
    assert Upto(k + 1) == Upto(k) + [k];
    GatherMeans(Upto(k), k, results);
  }

  /** The sequential path of fetchAll. */
  method FetchSequentially<T>(results: seq<Option<seq<T>>>) returns (all: seq<T>)
    ensures all == Gather(Upto(|results|), results)
  {
    all := [];
    for i := 0 to |results|
      invariant all == Gather(Upto(i), results)
    {
      assert Upto(i + 1)[..i] == Upto(i);
      match results[i]
      case Some(items) => all := all + items;
      case None =>
    }
  }
}

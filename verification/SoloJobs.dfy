/**
 * Jobs as the scheduler without workers sees them, and how their promises, the counters
 * and the queues agree.
 *
 * A job's code is a finite program: at each resumption it dispatches some jobs, and then
 * suspends or finishes.  Jobs that themselves wait for a counter are not programs.
 */
module SoloJobs {
  import opened Wrappers
  import opened Basics
  import opened JobTypes
  import opened WorkerQueues

  /** What a job does from its next resumption on. */
  datatype Program =
    | Finish(spawns: seq<Spawn>)
    | Suspend(spawns: seq<Spawn>, rest: Program)

  datatype Spawn = Spawn(program: Program, priority: Priority, counter: Option<Counter>)

  datatype Promise = Promise(program: Program, counter: Option<Counter>, done: bool)

  datatype IterationState = Executed | FilledCache | EmptyQueue

  /** How often a job, and all it will dispatch, are resumed in total. */
  function Resumptions(p: Program): nat
    decreases p
  {
    1 + SpawnedResumptions(p.spawns) + if p.Suspend? then Resumptions(p.rest) else 0
  }

  function SpawnResumptions(s: Spawn): nat
    decreases s
  {
    Resumptions(s.program)
  }

  function SpawnedResumptions(ss: seq<Spawn>): nat
    decreases ss
  {
    if ss == [] then 0 else SpawnResumptions(ss[0]) + SpawnedResumptions(ss[1..])
  }

  // ---------------------------------------------------------------- what a resumption leaves

  /** The jobs of a dispatch, numbered from `first` on, that have priority `p`, in order. */
  function OfPriority(spawns: seq<Spawn>, p: Priority, first: Job): seq<Job> {
    if spawns == [] then []
    else (if spawns[0].priority == p then [first] else []) + OfPriority(spawns[1..], p, first + 1)
  }

  /** They are just those, in the order of dispatch. */
  lemma {:induction false} OfPriorityHas(spawns: seq<Spawn>, p: Priority, first: Job, j: Job)
    ensures j in OfPriority(spawns, p, first)
       <==> first <= j < first + |spawns| && spawns[j - first].priority == p
    ensures Ascending(OfPriority(spawns, p, first))
  {
    if spawns != [] {
      OfPriorityHas(spawns[1..], p, first + 1, j);
      var rest := OfPriority(spawns[1..], p, first + 1);
      forall k | 0 <= k < |rest| ensures first < rest[k] {
        OfPriorityHas(spawns[1..], p, first + 1, rest[k]);
      }
    }
  }

  predicate Ascending(js: seq<Job>) {
    forall i, k :: 0 <= i < k < |js| ==> js[i] < js[k]
  }

  /** How many of them are dispatched with counter `c`. */
  function Announced(spawns: seq<Spawn>, c: Counter): nat {
    if spawns == [] then 0 else Announced(spawns[1..], c) + if spawns[0].counter == Some(c) then 1 else 0
  }

  lemma {:induction false} AnnouncedIsNumber(spawns: seq<Spawn>, c: Counter)
    ensures Announced(spawns, c) == |set i | 0 <= i < |spawns| && spawns[i].counter == Some(c)|
    decreases |spawns|
  {
    var all := set i | 0 <= i < |spawns| && spawns[i].counter == Some(c);
    if spawns == [] {
      assert all == {};
    } else {
      AnnouncedOfFront(spawns, c);
      var front := spawns[..|spawns| - 1];
      AnnouncedIsNumber(front, c);
      var fewer := set i | 0 <= i < |front| && front[i].counter == Some(c);
      if spawns[|front|].counter == Some(c) {
        assert all == fewer + {|front|};
      } else {
        assert all == fewer;
      }
    }
  }

  lemma {:induction false} AnnouncedOfFront(spawns: seq<Spawn>, c: Counter)
    requires spawns != []
    ensures Announced(spawns, c)
         == Announced(spawns[..|spawns| - 1], c) + if spawns[|spawns| - 1].counter == Some(c) then 1 else 0
  {
    if |spawns| > 1 {
      AnnouncedOfFront(spawns[1..], c);
      assert spawns[1..][..|spawns| - 2] == spawns[..|spawns| - 1][1..];
    }
  }

  /** All that the scheduler keeps between two iterations. */
  datatype Snapshot = Snapshot(promises: map<Job, Promise>, nextJob: Job, counts: map<Counter, nat>,
                               queued: QueueSet, cached: seq<Job>)

  /** The new jobs have the promises of their dispatch, and are queued with its priorities. */
  ghost predicate Spawned(before: Snapshot, after: Snapshot, spawns: seq<Spawn>) {
    && after.nextJob == before.nextJob + |spawns|
    && (forall i :: 0 <= i < |spawns| ==> IsNew(after.promises, before.nextJob + i, spawns[i]))
    && (forall j :: j in before.promises ==> j in after.promises && after.promises[j] == before.promises[j])
    && (forall j :: j in after.promises ==> j in before.promises || before.nextJob <= j < after.nextJob)
    && (forall p: Priority :: after.queued.Get(p) == before.queued.Get(p) + OfPriority(spawns, p, before.nextJob))
    && (forall c :: Count(after.counts, c) == Count(before.counts, c) + Announced(spawns, c))
    && after.cached == before.cached
  }

  predicate IsNew(promises: map<Job, Promise>, j: Job, s: Spawn) {
    j in promises && promises[j] == Promise(s.program, s.counter, false)
  }

  /** Job `j` has done one part of its program: it is queued again, or it has finished and lowered its counter. */
  ghost predicate Resumed(before: Snapshot, after: Snapshot, j: Job) {
    && j in before.promises && !before.promises[j].done
    && var promise := before.promises[j];
       exists middle: Snapshot ::
         && Spawned(before, middle, promise.program.spawns)
         && match promise.program
            case Finish(_) =>
              && after.promises == middle.promises[j := promise.(done := true)]
              && (forall c: Counter :: Count(after.counts, c) + (if promise.counter == Some(c) then 1 else 0)
                           == Count(middle.counts, c))
              && after.queued == middle.queued && after.cached == middle.cached && after.nextJob == middle.nextJob
            case Suspend(_, rest) =>
              && after == middle.(promises := middle.promises[j := promise.(program := rest)],
                                  queued := middle.queued.(normal := middle.queued.normal + [j]))
  }

  /** One iteration: the last cached job is resumed, or else the first queued ones become the cache. */
  ghost predicate Iterated(before: Snapshot, after: Snapshot, cacheSize: nat) {
    if before.cached != [] then
      var n := |before.cached| - 1;
      Resumed(before.(cached := before.cached[..n]), after, before.cached[n])
    else
      var jobs := before.queued.high + before.queued.normal + before.queued.low;
      var n := if |jobs| < cacheSize then |jobs| else cacheSize;
      && after.cached == jobs[..n]
      && after.queued.high + after.queued.normal + after.queued.low == jobs[n..]
      && after.queued == before.queued.Without(cacheSize)
      && after == before.(queued := after.queued, cached := after.cached)
  }

  // ---------------------------------------------------------------- totals over jobs

  /** What is added up: the resumptions still to come, or the jobs that carry a counter. */
  datatype Gauge = Work | Carrying(counter: Counter)

  function Weight(g: Gauge, p: Promise): nat {
    match g
    case Work => Resumptions(p.program)
    case Carrying(c) => if p.counter == Some(c) then 1 else 0
  }

  predicate Known(promises: map<Job, Promise>, js: seq<Job>) {
    forall j :: j in js ==> j in promises
  }

  function Total(g: Gauge, promises: map<Job, Promise>, js: seq<Job>): nat
    requires Known(promises, js)
  {
    if js == [] then 0 else Weight(g, promises[js[0]]) + Total(g, promises, js[1..])
  }

  lemma {:induction false} TotalOfBoth(g: Gauge, promises: map<Job, Promise>, a: seq<Job>, b: seq<Job>)
    requires Known(promises, a) && Known(promises, b)
    ensures Known(promises, a + b) && Total(g, promises, a + b) == Total(g, promises, a) + Total(g, promises, b)
  {
    if a == [] {
      assert a + b == b;
    } else {
      TotalOfBoth(g, promises, a[1..], b);
      assert (a + b)[1..] == a[1..] + b;
    }
  }

  lemma {:induction false} TotalUnchanged(g: Gauge, before: map<Job, Promise>, after: map<Job, Promise>, js: seq<Job>)
    requires Known(before, js)
    requires forall j :: j in js ==> j in after && Weight(g, after[j]) == Weight(g, before[j])
    ensures Total(g, after, js) == Total(g, before, js)
  {
    if js != [] {
      TotalUnchanged(g, before, after, js[1..]);
    }
  }

  lemma {:induction false} NoneCarries(promises: map<Job, Promise>, js: seq<Job>, c: Counter, j: Job)
    requires Known(promises, js) && Total(Carrying(c), promises, js) == 0 && j in js
    ensures promises[j].counter != Some(c)
  {
    if js[0] != j {
      NoneCarries(promises, js[1..], c, j);
    }
  }

  /** Where a job submitted with priority `p` comes in the order. */
  lemma SubmitSplits(q: QueueSet, p: Priority, j: Job) returns (a: seq<Job>, b: seq<Job>)
    ensures q.InOrder() == a + b && q.Put(p, q.Get(p) + [j]).InOrder() == a + [j] + b
  {
    match p
    case High =>
      a, b := q.high, q.normal + q.low;
      assert q.high + [j] + q.normal + q.low == a + [j] + b;
    case Normal =>
      a, b := q.high + q.normal, q.low;
      assert q.high + (q.normal + [j]) + q.low == a + [j] + b;
    case Low =>
      a, b := q.InOrder(), [];
      assert q.high + q.normal + (q.low + [j]) == a + [j] + b;
  }

  /** Inserting a job into one priority's queue adds just that job. */
  lemma TotalAfterSubmit(g: Gauge, promises: map<Job, Promise>, q: QueueSet, p: Priority, j: Job)
    requires Known(promises, q.InOrder()) && j in promises
    ensures var next := q.Put(p, q.Get(p) + [j]).InOrder();
            && Known(promises, next)
            && Total(g, promises, next) == Total(g, promises, q.InOrder()) + Weight(g, promises[j])
            && multiset(next) == multiset(q.InOrder()) + multiset{j}
  {
    var a, b := SubmitSplits(q, p, j);
    TotalOfBoth(g, promises, a, b);
    TotalOfBoth(g, promises, a, [j]);
    TotalOfBoth(g, promises, a + [j], b);
  }

  // ---------------------------------------------------------------- consistency of promises, counters and queues

  function Count(counts: map<Counter, nat>, c: Counter): nat {
    if c in counts then counts[c] else 0
  }

  /** The total over the queued jobs, the cached ones and the ones in a thread's hands. */
  function Sum(g: Gauge, promises: map<Job, Promise>, queued: seq<Job>, cached: seq<Job>, running: seq<Job>): nat
    requires Known(promises, queued) && Known(promises, cached) && Known(promises, running)
  {
    Total(g, promises, queued) + Total(g, promises, cached) + Total(g, promises, running)
  }

  function Occurrences(queued: seq<Job>, cached: seq<Job>, running: seq<Job>, j: Job): nat {
    multiset(queued)[j] + multiset(cached)[j] + multiset(running)[j]
  }

  /** Job `j` is somewhere, once, exactly when it has been dispatched and has not finished. */
  predicate PlacedOnce(promises: map<Job, Promise>, queued: seq<Job>, cached: seq<Job>, running: seq<Job>, j: Job) {
    Occurrences(queued, cached, running, j) == if j in promises && !promises[j].done then 1 else 0
  }

  predicate CountIs(promises: map<Job, Promise>, counts: map<Counter, nat>,
                    queued: seq<Job>, cached: seq<Job>, running: seq<Job>, c: Counter)
    requires Known(promises, queued) && Known(promises, cached) && Known(promises, running)
  {
    Count(counts, c) == Sum(Carrying(c), promises, queued, cached, running)
  }

  ghost predicate Consistent(promises: map<Job, Promise>, counts: map<Counter, nat>,
                             queued: seq<Job>, cached: seq<Job>, running: seq<Job>) {
    && Known(promises, queued) && Known(promises, cached) && Known(promises, running)
    && (forall j :: PlacedOnce(promises, queued, cached, running, j))
    && (forall c :: CountIs(promises, counts, queued, cached, running, c))
  }

  function Raised(counts: map<Counter, nat>, c: Option<Counter>): map<Counter, nat> {
    if c.Some? then counts[c.value := Count(counts, c.value) + 1] else counts
  }

  /** A new job adds its weight to every total. */
  lemma SumAfterDispatch(g: Gauge, promises: map<Job, Promise>, q: QueueSet, cached: seq<Job>, running: seq<Job>,
                         j: Job, promise: Promise, p: Priority)
    requires Known(promises, q.InOrder()) && Known(promises, cached) && Known(promises, running) && j !in promises
    ensures var next := q.Put(p, q.Get(p) + [j]).InOrder();
            var after := promises[j := promise];
            && Known(after, next) && multiset(next) == multiset(q.InOrder()) + multiset{j}
            && Sum(g, after, next, cached, running)
            == Sum(g, promises, q.InOrder(), cached, running) + Weight(g, promise)
  {
    var after := promises[j := promise];
    TotalAfterSubmit(g, after, q, p, j);
    TotalUnchanged(g, promises, after, q.InOrder());
    TotalUnchanged(g, promises, after, cached);
    TotalUnchanged(g, promises, after, running);
  }

  /** `j` is a new job, and is now queued. */
  lemma DispatchIsConsistent(promises: map<Job, Promise>, counts: map<Counter, nat>,
                             q: QueueSet, cached: seq<Job>, running: seq<Job>,
                             j: Job, promise: Promise, p: Priority)
    requires Consistent(promises, counts, q.InOrder(), cached, running)
    requires j !in promises && !promise.done
    ensures var next := q.Put(p, q.Get(p) + [j]).InOrder();
            && Consistent(promises[j := promise], Raised(counts, promise.counter), next, cached, running)
            && Sum(Work, promises[j := promise], next, cached, running)
            == Sum(Work, promises, q.InOrder(), cached, running) + Resumptions(promise.program)
  {
    var next := q.Put(p, q.Get(p) + [j]).InOrder();
    SumAfterDispatch(Work, promises, q, cached, running, j, promise, p);
    forall g ensures Sum(g, promises[j := promise], next, cached, running)
                  == Sum(g, promises, q.InOrder(), cached, running) + Weight(g, promise)
    {
      SumAfterDispatch(g, promises, q, cached, running, j, promise, p);
    }
    AddedIsConsistent(promises, counts, q.InOrder(), next, cached, running, j, promise);
  }

  lemma AddedIsConsistent(promises: map<Job, Promise>, counts: map<Counter, nat>,
                          queued: seq<Job>, next: seq<Job>, cached: seq<Job>, running: seq<Job>,
                          j: Job, promise: Promise)
    requires Consistent(promises, counts, queued, cached, running)
    requires j !in promises && !promise.done
    requires Known(promises[j := promise], next) && multiset(next) == multiset(queued) + multiset{j}
    requires forall g :: Sum(g, promises[j := promise], next, cached, running)
                      == Sum(g, promises, queued, cached, running) + Weight(g, promise)
    ensures Consistent(promises[j := promise], Raised(counts, promise.counter), next, cached, running)
  {
    var after := promises[j := promise];
    hide Sum;
    forall k ensures PlacedOnce(after, next, cached, running, k) {
      assert PlacedOnce(promises, queued, cached, running, k);
    }
    forall c ensures CountIs(after, Raised(counts, promise.counter), next, cached, running, c) {
      assert CountIs(promises, counts, queued, cached, running, c);
    }
  }

  /** Changing the promise of the running job changes no other job's weight. */
  lemma SumElsewhere(g: Gauge, promises: map<Job, Promise>, queued: seq<Job>, cached: seq<Job>, j: Job,
          promise: Promise)
    requires Known(promises, queued) && Known(promises, cached) && j !in queued && j !in cached
    ensures Sum(g, promises[j := promise], queued, cached, []) == Sum(g, promises, queued, cached, [])
  {
    TotalUnchanged(g, promises, promises[j := promise], queued);
    TotalUnchanged(g, promises, promises[j := promise], cached);
  }

  lemma RunningIsElsewhere(promises: map<Job, Promise>, counts: map<Counter, nat>,
                           queued: seq<Job>, cached: seq<Job>, j: Job)
    requires Consistent(promises, counts, queued, cached, [j])
    ensures j in promises && !promises[j].done && j !in queued && j !in cached
    ensures forall g :: Sum(g, promises, queued, cached, [j])
                     == Sum(g, promises, queued, cached, []) + Weight(g, promises[j])
  {
    assert PlacedOnce(promises, queued, cached, [j], j);
    assert [j][0] == j && [j][1..] == [];
    forall g ensures Total(g, promises, [j]) == Weight(g, promises[j]) + Total(g, promises, []) {
    }
  }

  /** The running job finishes. */
  lemma FinishIsConsistent(promises: map<Job, Promise>, counts: map<Counter, nat>,
                           queued: seq<Job>, cached: seq<Job>, j: Job)
    requires Consistent(promises, counts, queued, cached, [j])
    ensures j in promises && (promises[j].counter.Some? ==> Count(counts, promises[j].counter.value) > 0)
    ensures Consistent(promises[j := promises[j].(done := true)], Lowered(counts, promises[j].counter),
                       queued, cached, [])
    ensures Sum(Work, promises, queued, cached, [j])
         == Sum(Work, promises[j := promises[j].(done := true)], queued, cached, []) + Resumptions(promises[j].program)
  {
    RunningIsElsewhere(promises, counts, queued, cached, j);
    SumElsewhere(Work, promises, queued, cached, j, promises[j].(done := true));
    var after := promises[j := promises[j].(done := true)];
    hide Sum;
    if promises[j].counter.Some? {
      assert CountIs(promises, counts, queued, cached, [j], promises[j].counter.value);
    }
    forall c ensures CountIs(after, Lowered(counts, promises[j].counter), queued, cached, [], c) {
      assert CountIs(promises, counts, queued, cached, [j], c);
      SumElsewhere(Carrying(c), promises, queued, cached, j, promises[j].(done := true));
    }
    forall k ensures PlacedOnce(after, queued, cached, [], k) {
      assert PlacedOnce(promises, queued, cached, [j], k);
    }
  }

  function Lowered(counts: map<Counter, nat>, c: Option<Counter>): map<Counter, nat> {
    if c.Some? && Count(counts, c.value) > 0 then counts[c.value := Count(counts, c.value) - 1] else counts
  }

  /** The running job suspends and is queued again, with the counter it already has. */
  lemma SuspendIsConsistent(promises: map<Job, Promise>, counts: map<Counter, nat>,
                            q: QueueSet, cached: seq<Job>, j: Job, rest: Program)
    requires Consistent(promises, counts, q.InOrder(), cached, [j])
    ensures j in promises
    ensures var next := q.Put(Normal, q.Get(Normal) + [j]).InOrder();
            var after := promises[j := promises[j].(program := rest)];
            && Consistent(after, counts, next, cached, [])
            && Sum(Work, after, next, cached, []) + Resumptions(promises[j].program)
            == Sum(Work, promises, q.InOrder(), cached, [j]) + Resumptions(rest)
  {
    RunningIsElsewhere(promises, counts, q.InOrder(), cached, j);
    var next := q.Put(Normal, q.Get(Normal) + [j]).InOrder();
    var promise := promises[j].(program := rest);
    SumAfterSuspend(Work, promises, q, cached, j, promise);
    forall g ensures Sum(g, promises[j := promise], next, cached, [])
                  == Sum(g, promises, q.InOrder(), cached, []) + Weight(g, promise)
    {
      SumAfterSuspend(g, promises, q, cached, j, promise);
    }
    RequeuedIsConsistent(promises, counts, q.InOrder(), next, cached, j, promise);
  }

  lemma RequeuedIsConsistent(promises: map<Job, Promise>, counts: map<Counter, nat>,
                             queued: seq<Job>, next: seq<Job>, cached: seq<Job>, j: Job, promise: Promise)
    requires Consistent(promises, counts, queued, cached, [j])
    requires j in promises && promise == promises[j].(program := promise.program)
    requires Known(promises[j := promise], next) && multiset(next) == multiset(queued) + multiset{j}
    requires forall g :: Sum(g, promises[j := promise], next, cached, [])
                      == Sum(g, promises, queued, cached, []) + Weight(g, promise)
    ensures Consistent(promises[j := promise], counts, next, cached, [])
  {
    RunningIsElsewhere(promises, counts, queued, cached, j);
    var after := promises[j := promise];
    hide Sum;
    forall c ensures CountIs(after, counts, next, cached, [], c) {
      assert CountIs(promises, counts, queued, cached, [j], c);
    }
    forall k ensures PlacedOnce(after, next, cached, [], k) {
      assert PlacedOnce(promises, queued, cached, [j], k);
    }
  }

  lemma SumAfterSuspend(g: Gauge, promises: map<Job, Promise>, q: QueueSet, cached: seq<Job>, j: Job, promise: Promise)
    requires Known(promises, q.InOrder()) && Known(promises, cached) && j !in q.InOrder() && j !in cached
    ensures var next := q.Put(Normal, q.Get(Normal) + [j]).InOrder();
            var after := promises[j := promise];
            && Known(after, next) && multiset(next) == multiset(q.InOrder()) + multiset{j}
            && Sum(g, after, next, cached, []) == Sum(g, promises, q.InOrder(), cached, []) + Weight(g, promise)
  {
    var after := promises[j := promise];
    SumElsewhere(g, promises, q.InOrder(), cached, j, promise);
    TotalAfterSubmit(g, after, q, Normal, j);
  }

  /** Jobs fetched from the queue become the cache. */
  lemma FillIsConsistent(promises: map<Job, Promise>, counts: map<Counter, nat>, queued: seq<Job>, n: nat)
    requires Consistent(promises, counts, queued, [], []) && n <= |queued|
    ensures Consistent(promises, counts, queued[n..], queued[..n], [])
    ensures Sum(Work, promises, queued[n..], queued[..n], []) == Sum(Work, promises, queued, [], [])
  {
    assert queued == queued[..n] + queued[n..];
    forall g ensures Sum(g, promises, queued[n..], queued[..n], []) == Sum(g, promises, queued, [], []) {
      TotalOfBoth(g, promises, queued[..n], queued[n..]);
    }
    forall k ensures PlacedOnce(promises, queued[n..], queued[..n], [], k) {
      assert PlacedOnce(promises, queued, [], [], k);
    }
    forall c ensures CountIs(promises, counts, queued[n..], queued[..n], [], c) {
      assert CountIs(promises, counts, queued, [], [], c);
    }
  }

  /** The last cached job is taken into the thread's hands. */
  lemma PopIsConsistent(promises: map<Job, Promise>, counts: map<Counter, nat>,
                        queued: seq<Job>, cached: seq<Job>, j: Job)
    requires Consistent(promises, counts, queued, cached + [j], [])
    ensures Consistent(promises, counts, queued, cached, [j])
    ensures Sum(Work, promises, queued, cached, [j]) == Sum(Work, promises, queued, cached + [j], [])
  {
    assert j in cached + [j];
    assert forall k :: k in cached ==> k in cached + [j];
    forall g ensures Sum(g, promises, queued, cached, [j]) == Sum(g, promises, queued, cached + [j], []) {
      TotalOfBoth(g, promises, cached, [j]);
    }
    forall k ensures PlacedOnce(promises, queued, cached, [j], k) {
      assert PlacedOnce(promises, queued, cached + [j], [], k);
    }
    forall c ensures CountIs(promises, counts, queued, cached, [j], c) {
      assert CountIs(promises, counts, queued, cached + [j], [], c);
    }
  }

  /** A counter at zero: all the jobs dispatched with it have finished. */
  lemma ZeroMeansDone(promises: map<Job, Promise>, counts: map<Counter, nat>, queued: seq<Job>, cached: seq<Job>,
          c: Counter)
    requires Consistent(promises, counts, queued, cached, []) && Count(counts, c) == 0
    ensures forall j :: j in promises && promises[j].counter == Some(c) ==> promises[j].done
  {
    forall j | j in promises && promises[j].counter == Some(c) ensures promises[j].done {
      assert PlacedOnce(promises, queued, cached, [], j);
      assert CountIs(promises, counts, queued, cached, [], c);
      if j in queued {
        NoneCarries(promises, queued, c, j);
      } else if j in cached {
        NoneCarries(promises, cached, c, j);
      }
    }
  }

  /** A counter above zero: some job is queued or cached. */
  lemma PositiveMeansPending(promises: map<Job, Promise>, counts: map<Counter, nat>, queued: seq<Job>,
          cached: seq<Job>, c: Counter)
    requires Consistent(promises, counts, queued, cached, []) && Count(counts, c) > 0
    ensures queued != [] || cached != []
  {
    assert CountIs(promises, counts, queued, cached, [], c);
  }

  /** Jobs keep their counter, and stay finished once they have. */
  ghost predicate Extends(before: map<Job, Promise>, after: map<Job, Promise>) {
    forall j :: j in before ==>
      && j in after && after[j].counter == before[j].counter
      && (before[j].done ==> after[j].done)
  }

  lemma SpawnedFacts(before: Snapshot, after: Snapshot, spawns: seq<Spawn>, j: Job)
    requires Spawned(before, after, spawns) && j in before.promises
    ensures j in after.promises && after.promises[j] == before.promises[j] && after.cached == before.cached
    ensures Extends(before.promises, after.promises)
  {
  }

  lemma ResumedAndFinished(before: Snapshot, middle: Snapshot, after: Snapshot, j: Job)
    requires j in before.promises && !before.promises[j].done && before.promises[j].program.Finish?
    requires Spawned(before, middle, before.promises[j].program.spawns)
    requires after.promises == middle.promises[j := before.promises[j].(done := true)]
    requires var c := before.promises[j].counter;
             after.counts == Lowered(middle.counts, c) && (c.Some? ==> Count(middle.counts, c.value) > 0)
    requires after.queued == middle.queued && after.cached == middle.cached && after.nextJob == middle.nextJob
    ensures Resumed(before, after, j) && Extends(before.promises, after.promises)
    ensures Resumptions(before.promises[j].program) == 1 + SpawnedResumptions(before.promises[j].program.spawns)
  {
    SpawnedFacts(before, middle, before.promises[j].program.spawns, j);
    hide Spawned;
  }

  lemma ResumedAndSuspended(before: Snapshot, middle: Snapshot, after: Snapshot, j: Job)
    requires j in before.promises && !before.promises[j].done && before.promises[j].program.Suspend?
    requires Spawned(before, middle, before.promises[j].program.spawns)
    requires after == middle.(promises := middle.promises[j := before.promises[j].(program :=
                                                                before.promises[j].program.rest)],
                              queued := middle.queued.Put(Normal, middle.queued.Get(Normal) + [j]))
    ensures Resumed(before, after, j) && Extends(before.promises, after.promises)
    ensures Resumptions(before.promises[j].program)
         == 1 + SpawnedResumptions(before.promises[j].program.spawns) + Resumptions(before.promises[j].program.rest)
  {
    SpawnedFacts(before, middle, before.promises[j].program.spawns, j);
    hide Spawned;
  }

  lemma NothingSpawned(s: Snapshot)
    ensures Spawned(s, s, [])
  {
  }

  /** One job dispatched, and then the others. */
  lemma OneMoreSpawned(before: Snapshot, middle: Snapshot, after: Snapshot, spawns: seq<Spawn>, j: Job)
    requires spawns != [] && j == before.nextJob && j !in before.promises
    requires middle.promises == before.promises[j := Promise(spawns[0].program, spawns[0].counter, false)]
    requires middle.counts == Raised(before.counts, spawns[0].counter) && middle.nextJob == before.nextJob + 1
    requires var p := spawns[0].priority; middle.queued == before.queued.Put(p, before.queued.Get(p) + [j])
    requires middle.cached == before.cached && Spawned(middle, after, spawns[1..])
    ensures Spawned(before, after, spawns)
  {
    forall i | 0 <= i < |spawns| ensures IsNew(after.promises, before.nextJob + i, spawns[i]) {
      if i > 0 { assert IsNew(after.promises, middle.nextJob + (i - 1), spawns[1..][i - 1]); }
    }
    forall p: Priority
      ensures after.queued.Get(p) == before.queued.Get(p) + OfPriority(spawns, p, before.nextJob)
    {
      var rest := OfPriority(spawns[1..], p, middle.nextJob);
      assert after.queued.Get(p) == middle.queued.Get(p) + rest;
      assert before.queued.Get(p) + [j] + rest == before.queued.Get(p) + ([j] + rest);
    }
    forall c ensures Count(after.counts, c) == Count(before.counts, c) + Announced(spawns, c) {
      assert Count(after.counts, c) == Count(middle.counts, c) + Announced(spawns[1..], c);
    }
  }

  lemma IteratedByRunning(before: Snapshot, after: Snapshot, cacheSize: nat)
    requires before.cached != []
    requires var n := |before.cached| - 1;
             Resumed(before.(cached := before.cached[..n]), after, before.cached[n])
    ensures Iterated(before, after, cacheSize) && after.cached == before.cached[..|before.cached| - 1]
  {
    hide Spawned;
    var n := |before.cached| - 1;
    ResumedKeepsCache(before.(cached := before.cached[..n]), after, before.cached[n]);
    hide Resumed;
  }

  lemma ResumedKeepsCache(before: Snapshot, after: Snapshot, j: Job)
    requires Resumed(before, after, j)
    ensures after.cached == before.cached
  {
  }

  lemma IteratedByFilling(before: Snapshot, after: Snapshot, cacheSize: nat)
    requires before.cached == []
    requires var n := Min(cacheSize, |before.queued.InOrder()|);
             && after.cached == before.queued.InOrder()[..n] && after.queued.InOrder() == before.queued.InOrder()[n..]
             && after.queued == before.queued.Without(cacheSize)
    requires after == before.(queued := after.queued, cached := after.cached)
    ensures Iterated(before, after, cacheSize)
  {
  }

  // ---------------------------------------------------------------- a whole wait

  /** There is a job to run. */
  predicate HasWork(s: Snapshot) {
    s.cached != [] || s.queued.high != [] || s.queued.normal != [] || s.queued.low != []
  }

  /**
   * The states of a wait for `c`: one iteration after the other, each with a job to run, as long as
   * the counter is not zero.
   */
  ghost predicate IsRun(trace: seq<Snapshot>, first: Snapshot, last: Snapshot, c: Counter, cacheSize: nat) {
    && trace != [] && trace[0] == first && trace[|trace| - 1] == last
    && forall i :: 0 <= i < |trace| - 1 ==>
         Count(trace[i].counts, c) > 0 && HasWork(trace[i]) && Iterated(trace[i], trace[i + 1], cacheSize)
  }

  lemma PendingIsWork(s: Snapshot)
    ensures HasWork(s) <==> s.queued.InOrder() != [] || s.cached != []
  {
  }

  lemma RunStarts(s: Snapshot, c: Counter, cacheSize: nat)
    ensures IsRun([s], s, s, c, cacheSize)
  {
  }

  lemma RunGoesOn(trace: seq<Snapshot>, first: Snapshot, before: Snapshot, after: Snapshot, c: Counter, cacheSize: nat)
    requires IsRun(trace, first, before, c, cacheSize)
    requires Count(before.counts, c) > 0 && HasWork(before) && Iterated(before, after, cacheSize)
    ensures IsRun(trace + [after], first, after, c, cacheSize)
  {
    hide Iterated, Count, HasWork;
  }

  lemma NothingChanged(promises: map<Job, Promise>)
    ensures Extends(promises, promises)
  {
  }
}

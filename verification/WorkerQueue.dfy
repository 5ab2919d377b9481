/**
 * A worker's queue: a local and a stealable queue for each priority, each with an
 * atomic size counter kept beside it.  These are the operations with no other thread
 * in the middle of one.
 */
module WorkerQueues {
  import opened Wrappers
  import opened Basics
  import opened JobTypes

  // ---------------------------------------------------------------- one queue per priority

  datatype QueueSet = QueueSet(low: seq<Job>, normal: seq<Job>, high: seq<Job>) {
    function Get(p: Priority): seq<Job> {
      match p
      case Low => low
      case Normal => normal
      case High => high
    }

    function Put(p: Priority, q: seq<Job>): QueueSet {
      match p
      case Low => this.(low := q)
      case Normal => this.(normal := q)
      case High => this.(high := q)
    }

    /** A change at one priority leaves the others alone. */
    lemma OtherPriorities()
      ensures forall a: seq<Job>, p: Priority :: p != High ==> Put(High, a).Get(p) == Get(p)
      ensures forall a: seq<Job>, b: seq<Job> :: Put(High, a).Put(Normal, b).Get(Low) == Get(Low)
      ensures forall p: Priority :: Put(p, Get(p)) == this
      ensures forall a: seq<Job> :: Put(High, a).Put(Normal, Get(Normal)) == Put(High, a)
      ensures forall a: seq<Job>, b: seq<Job> ::
                Put(High, a).Put(Normal, b).Put(Low, Get(Low)) == Put(High, a).Put(Normal, b)
      ensures forall a: seq<Job> :: Put(High, a).Put(Low, Get(Low)) == Put(High, a)
    {
    }

    /** All jobs, in the order in which they are to be handed out. */
    function InOrder(): seq<Job> {
      high + normal + low
    }

    /** The set without the first `n` jobs of that order. */
    function Without(n: nat): QueueSet {
      var (fromHigh, fromNormal, fromLow) := Shares(n);
      QueueSet(low[fromLow..], normal[fromNormal..], high[fromHigh..])
    }

    /** How many of the first `n` jobs come from each priority. */
    function Shares(n: nat): (nat, nat, nat) {
      var fromHigh := Min(n, |high|);
      var fromNormal := Min(n - fromHigh, |normal|);
      (fromHigh, fromNormal, Min(n - fromHigh - fromNormal, |low|))
    }

    /** Without(n) leaves exactly the rest of the order, and what it leaves out is exactly its beginning. */
    lemma WithoutIsSuffix(n: nat)
      ensures var total := Min(n, |InOrder()|);
              var (h, m, l) := Shares(n);
              && Without(n).InOrder() == InOrder()[total..]
              && high[..h] + normal[..m] + low[..l] == InOrder()[..total] && h + m + l == total
    {
    }
  }

  /** What three dequeues, one for each priority, leave and hand out. */
  lemma TakenFromEach(q: QueueSet, n: nat, h: nat, m: nat, l: nat)
    requires h == Min(n, |q.Get(High)|) && m == Min(n - h, |q.Get(Normal)|) && l == Min(n - h - m, |q.Get(Low)|)
    ensures q.Without(n) == q.Put(High, q.Get(High)[h..]).Put(Normal, q.Get(Normal)[m..]).Put(Low, q.Get(Low)[l..])
    ensures h + m + l == Min(n, |q.InOrder()|)
    ensures q.InOrder()[..h + m + l] == q.Get(High)[..h] + q.Get(Normal)[..m] + q.Get(Low)[..l]
  {
    q.WithoutIsSuffix(n);
  }

  /** The sizes, as 64-bit words. */
  datatype Counts = Counts(low: nat, normal: nat, high: nat) {
    function Get(p: Priority): nat {
      match p
      case Low => low
      case Normal => normal
      case High => high
    }

    function Put(p: Priority, n: nat): Counts {
      match p
      case Low => this.(low := n)
      case Normal => this.(normal := n)
      case High => this.(high := n)
    }

    /** fetch_add, wrapping around. */
    function Add(p: Priority, n: nat): Counts {
      Put(p, Wrap(Get(p) + n))
    }

    /** fetch_sub, wrapping around. */
    function Sub(p: Priority, n: nat): Counts {
      Put(p, Wrap(Get(p) - n))
    }
  }

  function Wrap(n: int): nat {
    n % WORD
  }

  lemma WrapTwice(n: int, change: int)
    ensures Wrap(Wrap(n) + change) == Wrap(n + change)
  {
  }

  predicate Agree(c: Counts, q: QueueSet) {
    c.low == Wrap(|q.low|) && c.normal == Wrap(|q.normal|) && c.high == Wrap(|q.high|)
  }

  /** A queue and its counter change together. */
  lemma AgreeOnChange(c: Counts, q: QueueSet, p: Priority, rest: seq<Job>)
    requires Agree(c, q)
    ensures |rest| >= |q.Get(p)| ==> Agree(c.Add(p, |rest| - |q.Get(p)|), q.Put(p, rest))
    ensures |rest| <= |q.Get(p)| ==> Agree(c.Sub(p, |q.Get(p)| - |rest|), q.Put(p, rest))
  {
    WrapTwice(|q.Get(p)|, |rest| - |q.Get(p)|);
    hide Wrap;
  }

  /** What a migration leaves at one priority. */
  predicate LevelMigrated(local: QueueSet, stealable: QueueSet, nextLocal: QueueSet, nextStealable: QueueSet,
          p: Priority) {
    && nextStealable.Get(p) == stealable.Get(p) + Migrated(local.Get(p))
    && nextLocal.Get(p) == local.Get(p)[|Migrated(local.Get(p))|..]
  }

  /** With more than 64 local jobs the first 32 go to the end of the stealable ones; with fewer, none. */
  predicate Moved32(local: seq<Job>, stealable: seq<Job>, nextLocal: seq<Job>, nextStealable: seq<Job>) {
    if |local| > 64 then nextStealable == stealable + local[..32] && nextLocal == local[32..]
    else nextStealable == stealable && nextLocal == local
  }

  lemma AllMigrated(local: QueueSet, stealable: QueueSet, nextLocal: QueueSet, nextStealable: QueueSet)
    requires forall p: Priority :: LevelMigrated(local, stealable, nextLocal, nextStealable, p)
    ensures forall p: Priority ::
              Moved32(local.Get(p), stealable.Get(p), nextLocal.Get(p), nextStealable.Get(p))
    ensures forall p: Priority :: nextStealable.Get(p) + nextLocal.Get(p) == stealable.Get(p) + local.Get(p)
  {
    forall p: Priority
      ensures Moved32(local.Get(p), stealable.Get(p), nextLocal.Get(p), nextStealable.Get(p))
      ensures nextStealable.Get(p) + nextLocal.Get(p) == stealable.Get(p) + local.Get(p)
    {
      assert LevelMigrated(local, stealable, nextLocal, nextStealable, p);
      var moved := Migrated(local.Get(p));
      assert local.Get(p) == moved + local.Get(p)[|moved|..];
    }
  }

  /** One level of a migration. */
  function Migrated(local: seq<Job>): seq<Job> {
    if |local| > THRESHOLD then local[..MOVE_COUNT] else []
  }

  /** The queue library's bulk dequeue: up to `max` jobs from the front of `q` into `jobs` from `start` on. */
  method DequeueBulk(q: seq<Job>, jobs: array<Job>, start: nat, max: nat) returns (rest: seq<Job>, count: nat)
    requires start + max <= jobs.Length
    modifies jobs
    ensures count == Min(max, |q|) && rest == q[count..]
    ensures jobs[..start + count] == old(jobs[..start]) + q[..count]
    ensures forall k :: start + count <= k < jobs.Length ==> jobs[k] == old(jobs[k])
  {
    count := 0;
    while count < max && count < |q|
      invariant count <= Min(max, |q|)
      invariant jobs[..start + count] == old(jobs[..start]) + q[..count]
      invariant forall k :: start + count <= k < jobs.Length ==> jobs[k] == old(jobs[k])
    {
      jobs[start + count] := q[count];
      count := count + 1;
    }
    rest := q[count..];
  }

  class WorkerQueue {
    var localSet: QueueSet
    var stealableSet: QueueSet
    var localCount: Counts
    var stealableCount: Counts

    ghost predicate Valid()
      reads this
    {
      Agree(localCount, localSet) && Agree(stealableCount, stealableSet)
    }

    constructor ()
      ensures Valid() && localSet == QueueSet([], [], []) && stealableSet == QueueSet([], [], [])
    {
      localSet, stealableSet := QueueSet([], [], []), QueueSet([], [], []);
      localCount, stealableCount := Counts(0, 0, 0), Counts(0, 0, 0);
    }

    method SubmitJobBatch(jobs: seq<Job>, p: Priority)
      requires Valid()
      modifies this
      ensures Valid()
      ensures localSet == old(localSet).Put(p, old(localSet).Get(p) + jobs)
      ensures stealableSet == old(stealableSet)
    {
      AgreeOnChange(localCount, localSet, p, localSet.Get(p) + jobs);
      hide Wrap;
      localSet := localSet.Put(p, localSet.Get(p) + jobs);
      localCount := localCount.Add(p, |jobs|);
    }

    method TryPop() returns (job: Option<Job>)
      requires Valid()
      modifies this
      ensures Valid() && stealableSet == old(stealableSet)
      ensures job == if old(localSet).InOrder() == [] then None else Some(old(localSet).InOrder()[0])
      ensures localSet == old(localSet).Without(1)
    {
      if localSet.high != [] {
        AgreeOnChange(localCount, localSet, High, localSet.high[1..]);
        job := Some(localSet.high[0]);
        localSet := localSet.(high := localSet.high[1..]);
        localCount := localCount.Sub(High, 1);
      } else if localSet.normal != [] {
        AgreeOnChange(localCount, localSet, Normal, localSet.normal[1..]);
        job := Some(localSet.normal[0]);
        localSet := localSet.(normal := localSet.normal[1..]);
        localCount := localCount.Sub(Normal, 1);
      } else if localSet.low != [] {
        AgreeOnChange(localCount, localSet, Low, localSet.low[1..]);
        job := Some(localSet.low[0]);
        localSet := localSet.(low := localSet.low[1..]);
        localCount := localCount.Sub(Low, 1);
      } else {
        job := None;
      }
    }

    /** try_dequeue_bulk on one local queue, and the matching fetch_sub. */
    method PopLevel(p: Priority, jobs: array<Job>, start: nat, max: nat) returns (count: nat)
      requires Valid() && start + max <= jobs.Length
      modifies this, jobs
      ensures Valid() && stealableSet == old(stealableSet)
      ensures count == Min(max, |old(localSet).Get(p)|)
      ensures localSet == old(localSet).Put(p, old(localSet).Get(p)[count..])
      ensures jobs[..start + count] == old(jobs[..start]) + old(localSet).Get(p)[..count]
      ensures forall k :: start + count <= k < jobs.Length ==> jobs[k] == old(jobs[k])
    {
      hide Wrap, Agree;
      var rest;
      rest, count := DequeueBulk(localSet.Get(p), jobs, start, max);
      AgreeOnChange(localCount, localSet, p, rest);
      localSet := localSet.Put(p, rest);
      localCount := localCount.Sub(p, count);
    }

    /** PopLevel, when there is still room for jobs. */
    method PopMore(p: Priority, jobs: array<Job>, start: nat, max: nat) returns (count: nat)
      requires Valid() && start + max <= jobs.Length
      modifies this, jobs
      ensures Valid() && stealableSet == old(stealableSet)
      ensures count == Min(max, |old(localSet).Get(p)|)
      ensures localSet == old(localSet).Put(p, old(localSet).Get(p)[count..])
      ensures jobs[..start + count] == old(jobs[..start]) + old(localSet).Get(p)[..count]
      ensures forall k :: start + count <= k < jobs.Length ==> jobs[k] == old(jobs[k])
    {
      count := 0;
      if max > 0 {
        count := PopLevel(p, jobs, start, max);
      }
    }

    /** Hands out exactly the first `maxCount` local jobs: all High ones before Normal before Low. */
    method TryPopBulk(jobs: array<Job>, maxCount: nat) returns (total: nat)
      requires Valid() && maxCount <= jobs.Length
      modifies this, jobs
      ensures Valid() && stealableSet == old(stealableSet)
      ensures total == Min(maxCount, |old(localSet).InOrder()|)
      ensures jobs[..total] == old(localSet).InOrder()[..total]
      ensures forall k :: total <= k < jobs.Length ==> jobs[k] == old(jobs[k])
      ensures localSet == old(localSet).Without(maxCount)
    {
      hide Wrap, Agree, QueueSet.InOrder, QueueSet.Without;
      ghost var q := localSet;
      var h := PopLevel(High, jobs, 0, maxCount);
      var m := PopMore(Normal, jobs, h, maxCount - h);
      var l := PopMore(Low, jobs, h + m, maxCount - h - m);
      total := h + m + l;
      TakenFromEach(q, maxCount, h, m, l);
    }

    /** The queues are shorter than 2^64, so that the counters tell their lengths. */
    ghost predicate StealableTells()
      reads this
    {
      forall p: Priority :: |stealableSet.Get(p)| < WORD
    }

    ghost predicate LocalTells()
      reads this
    {
      forall p: Priority :: |localSet.Get(p)| < WORD
    }

    lemma ShorterStaysShort(q: QueueSet, p: Priority, rest: seq<Job>)
      requires forall r: Priority :: |q.Get(r)| < WORD
      requires |rest| <= |q.Get(p)|
      ensures forall r: Priority :: |q.Put(p, rest).Get(r)| < WORD
    {
      forall r: Priority ensures |q.Put(p, rest).Get(r)| < WORD {
        assert |q.Get(r)| < WORD;
      }
    }

    lemma TellsLength(c: Counts, q: QueueSet, p: Priority)
      requires Agree(c, q) && |q.Get(p)| < WORD
      ensures c.Get(p) == |q.Get(p)|
    {
    }

    /** One priority of a steal: skipped when the counter reads zero. */
    method StealLevel(p: Priority, jobs: array<Job>, start: nat, max: nat) returns (count: nat)
      requires Valid() && StealableTells() && start + max <= jobs.Length
      modifies this, jobs
      ensures Valid() && StealableTells() && localSet == old(localSet)
      ensures count == Min(max, |old(stealableSet).Get(p)|)
      ensures stealableSet == old(stealableSet).Put(p, old(stealableSet).Get(p)[count..])
      ensures jobs[..start + count] == old(jobs[..start]) + old(stealableSet).Get(p)[..count]
      ensures forall k :: start + count <= k < jobs.Length ==> jobs[k] == old(jobs[k])
    {
      count := 0;
      if stealableCount.Get(p) > 0 {
        hide Wrap, Agree;
        var rest;
        rest, count := DequeueBulk(stealableSet.Get(p), jobs, start, max);
        if count > 0 {
          AgreeOnChange(stealableCount, stealableSet, p, rest);
          ShorterStaysShort(stealableSet, p, rest);
          stealableSet := stealableSet.Put(p, rest);
          stealableCount := stealableCount.Sub(p, count);
        }
      }
    }

    /** Steals exactly the first `maxCount` stealable jobs, with the same order of priorities. */
    method AttemptSteal(jobs: array<Job>, maxCount: nat) returns (total: nat)
      requires Valid() && StealableTells() && maxCount <= jobs.Length
      modifies this, jobs
      ensures Valid() && localSet == old(localSet)
      ensures total == Min(maxCount, |old(stealableSet).InOrder()|)
      ensures jobs[..total] == old(stealableSet).InOrder()[..total]
      ensures forall k :: total <= k < jobs.Length ==> jobs[k] == old(jobs[k])
      ensures stealableSet == old(stealableSet).Without(maxCount)
    {
      ghost var q := stealableSet;
      q.OtherPriorities();
      hide Wrap, Agree, QueueSet.InOrder, QueueSet.Without, QueueSet.Get, QueueSet.Put;
      ghost var h, m := 0, 0;
      var stolen := StealLevel(High, jobs, 0, maxCount);
      total, h := stolen, stolen;
      if stolen > 0 && stolen >= maxCount {
        TakenFromEach(q, maxCount, h, 0, 0);
        return;
      }
      stolen := StealLevel(Normal, jobs, total, maxCount - total);
      total, m := total + stolen, stolen;
      if stolen > 0 && stolen >= maxCount {
        TakenFromEach(q, maxCount, h, m, 0);
        return;
      }
      stolen := StealLevel(Low, jobs, total, maxCount - total);
      total := total + stolen;
      TakenFromEach(q, maxCount, h, m, stolen);
    }

    /** The moving part of a migration, once the counter has been found above the threshold. */
    method MoveLevel(p: Priority)
      requires Valid() && |localSet.Get(p)| > THRESHOLD
      modifies this
      ensures Valid()
      ensures localSet == old(localSet).Put(p, old(localSet).Get(p)[MOVE_COUNT..])
      ensures stealableSet == old(stealableSet).Put(p, old(stealableSet).Get(p) + old(localSet).Get(p)[..MOVE_COUNT])
    {
      hide Wrap, Agree;
      var jobs := new Job[MOVE_COUNT];
      var rest, count := DequeueBulk(localSet.Get(p), jobs, 0, MOVE_COUNT);
      if count > 0 {
        ghost var batch := localSet.Get(p)[..count];
        assert jobs[..count] == batch;
        AgreeOnChange(localCount, localSet, p, rest);
        AgreeOnChange(stealableCount, stealableSet, p, stealableSet.Get(p) + batch);
        stealableSet := stealableSet.Put(p, stealableSet.Get(p) + jobs[..count]);
        localCount := localCount.Sub(p, count);
        localSet := localSet.Put(p, rest);
        stealableCount := stealableCount.Add(p, count);
      }
    }

    /** One priority of a migration. */
    method MigrateLevel(p: Priority)
      requires Valid() && LocalTells()
      modifies this
      ensures Valid() && LocalTells()
      ensures localSet == old(localSet).Put(p, old(localSet).Get(p)[|Migrated(old(localSet).Get(p))|..])
      ensures stealableSet
           == old(stealableSet).Put(p, old(stealableSet).Get(p) + Migrated(old(localSet).Get(p)))
    {
      TellsLength(localCount, localSet, p);
      ShorterStaysShort(localSet, p, localSet.Get(p)[|Migrated(localSet.Get(p))|..]);
      hide Wrap, Agree;
      if localCount.Get(p) > THRESHOLD {
        MoveLevel(p);
      }
    }

    /**
     * For each priority, when more than 64 jobs are local, the first 32 go to the end of the
     * stealable queue; stealable followed by local is the same sequence as before.
     */
    method MigrateJobsToStealable()
      requires Valid() && LocalTells()
      modifies this
      ensures Valid()
      ensures forall p: Priority ::
                Moved32(old(localSet).Get(p), old(stealableSet).Get(p), localSet.Get(p), stealableSet.Get(p))
      ensures forall p: Priority ::
                stealableSet.Get(p) + localSet.Get(p) == old(stealableSet).Get(p) + old(localSet).Get(p)
    {
      hide Wrap, Agree, Migrated;
      MigrateLevel(High);
      MigrateLevel(Normal);
      MigrateLevel(Low);
      AllMigrated(old(localSet), old(stealableSet), localSet, stealableSet);
    }
  }
}

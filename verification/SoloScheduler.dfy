/** The scheduler without workers: wait_for_counter runs every job on the waiting thread. */
module SoloScheduler {
  import opened Wrappers
  import opened Basics
  import opened JobTypes
  import opened WorkerQueues
  import opened SoloJobs

  class Scheduler {
    const queue: WorkerQueue
    const cache: array<Job>
    var cacheIndex: nat
    var promises: map<Job, Promise>
    var nextJob: Job
    var counts: map<Counter, nat>
    var wake: bool
    /** How many times a job has been resumed so far. */
    ghost var resumed: nat

    ghost function Queued(): seq<Job>
      reads queue
    {
      queue.localSet.InOrder()
    }

    ghost function Cached(): seq<Job>
      requires cacheIndex <= cache.Length
      reads this, cache
    {
      cache[..cacheIndex]
    }

    ghost function Look(): Snapshot
      requires cacheIndex <= cache.Length
      reads this, queue, cache
    {
      Snapshot(promises, nextJob, counts, queue.localSet, Cached())
    }

    /** Everything agrees, with the jobs of `running` in the thread's hands. */
    ghost predicate Valid(running: seq<Job>)
      reads this, queue, cache
    {
      && queue.Valid()
      && 0 < cache.Length && cacheIndex <= cache.Length
      && (forall j :: j in promises ==> j < nextJob)
      && Consistent(promises, counts, Queued(), Cached(), running)
    }

    /** The resumptions still to come. */
    ghost function Left(running: seq<Job>): nat
      requires Valid(running)
      reads this, queue, cache
    {
      Sum(Work, promises, Queued(), Cached(), running)
    }

    constructor (cacheSize: nat)
      requires cacheSize > 0
      ensures Valid([]) && Left([]) == 0 && promises == map[] && counts == map[] && resumed == 0
      ensures fresh(queue) && fresh(cache)
    {
      queue := new WorkerQueue();
      cache := new Job[cacheSize];
      cacheIndex, promises, nextJob, counts, wake, resumed := 0, map[], 0, map[], false, 0;
      new;
      assert Queued() == [] && Cached() == [];
    }

    /** dispatch_job for a new coroutine: its counter is raised before it is queued. */
    method DispatchJob(program: Program, p: Priority, counter: Option<Counter>, ghost running: seq<Job>)
      returns (j: Job)
      requires Valid(running)
      modifies this`promises, this`nextJob, this`counts, queue
      ensures Valid(running) && Left(running) == old(Left(running)) + Resumptions(program)
      ensures j == old(nextJob) && j !in old(promises)
      ensures promises == old(promises)[j := Promise(program, counter, false)]
      ensures counts == Raised(old(counts), counter) && nextJob == old(nextJob) + 1
      ensures queue.localSet == old(queue.localSet).Put(p, old(queue.localSet).Get(p) + [j])
    {
      DispatchIsConsistent(promises, counts, queue.localSet, Cached(), running, nextJob,
                           Promise(program, counter, false), p);
      hide Consistent, Sum, QueueSet.InOrder, QueueSet.Get, QueueSet.Put, Agree, Resumptions, Known, Raised;
      j := Announce(program, counter);
      queue.SubmitJobBatch([j], p);
    }

    /** The handle gets its promise, and the counter is raised before the job can be found in a queue. */
    method Announce(program: Program, counter: Option<Counter>) returns (j: Job)
      modifies this`promises, this`nextJob, this`counts
      ensures j == old(nextJob) && nextJob == old(nextJob) + 1
      ensures promises == old(promises)[j := Promise(program, counter, false)]
      ensures counts == Raised(old(counts), counter)
    {
      j := nextJob;
      nextJob := nextJob + 1;
      promises := promises[j := Promise(program, counter, false)];
      if counter.Some? {
        counts := counts[counter.value := Count(counts, counter.value) + 1];
      }
    }

    /** What a resumed job dispatches before it suspends or finishes. */
    method DispatchAll(spawns: seq<Spawn>, ghost running: seq<Job>)
      requires Valid(running)
      modifies this`promises, this`nextJob, this`counts, queue
      ensures Valid(running) && Left(running) == old(Left(running)) + SpawnedResumptions(spawns)
      ensures Spawned(old(Look()), Look(), spawns)
    {
      ghost var before := Look();
      if spawns == [] {
        NothingSpawned(before);
      } else {
        var first := spawns[0];
        var j := DispatchJob(first.program, first.priority, first.counter, running);
        ghost var middle := Look();
        DispatchAll(spawns[1..], running);
        OneMoreSpawned(before, middle, Look(), spawns, j);
      }
    }

    /**
     * Resumes job `j` once: it does one part of its program, and then either is queued again,
     * keeping its counter, or finishes and lowers its counter.
     */
    method ExecuteJob(j: Job)
      requires Valid([j]) && j in promises
      modifies this`promises, this`nextJob, this`counts, this`wake, this`resumed, queue
      ensures Valid([]) && old(Left([j])) == Left([]) + 1 && resumed == old(resumed) + 1
      ensures Extends(old(promises), promises) && !wake
      ensures Resumed(old(Look()), Look(), j)
    {
      RunningIsElsewhere(promises, counts, Queued(), Cached(), j);
      hide Consistent, Sum, QueueSet.InOrder, Spawned, Resumed, Extends, Resumptions, SpawnedResumptions, Lowered,
           Agree, Known;
      ghost var before := Look();
      resumed := resumed + 1;
      var program := promises[j].program;
      DispatchAll(program.spawns, [j]);
      ghost var middle := Look();
      SpawnedFacts(before, middle, program.spawns, j);
      if program.Finish? {
        FinishJob(j);
        ResumedAndFinished(before, middle, Look(), j);
      } else {
        SuspendJob(j, program.rest);
        ResumedAndSuspended(before, middle, Look(), j);
      }
    }

    /** FinalizeJob: the counter is lowered, and the flag cleared. */
    method FinishJob(j: Job)
      requires Valid([j]) && j in promises && promises[j].program.Finish?
      modifies this`promises, this`counts, this`wake
      ensures Valid([]) && old(Left([j])) == Left([]) + Resumptions(old(promises)[j].program) && !wake
      ensures promises == old(promises)[j := old(promises)[j].(done := true)]
      ensures counts == Lowered(old(counts), old(promises)[j].counter)
      ensures old(promises)[j].counter.Some? ==> Count(old(counts), old(promises)[j].counter.value) > 0
    {
      FinishIsConsistent(promises, counts, Queued(), Cached(), j);
      hide Consistent, Sum, QueueSet.InOrder;
      counts := Lowered(counts, promises[j].counter);
      promises := promises[j := promises[j].(done := true)];
      wake := false;
    }

    /** SuspendJob: the job is queued again, with normal priority and without a counter of the call's own. */
    method SuspendJob(j: Job, rest: Program)
      requires Valid([j]) && j in promises
      modifies this`promises, this`wake, queue
      ensures Valid([]) && !wake
      ensures old(Left([j])) + Resumptions(rest) == Left([]) + Resumptions(old(promises)[j].program)
      ensures promises == old(promises)[j := old(promises)[j].(program := rest)]
      ensures queue.localSet == old(queue.localSet).Put(Normal, old(queue.localSet).Get(Normal) + [j])
    {
      SuspendIsConsistent(promises, counts, queue.localSet, Cached(), j, rest);
      hide Consistent, Sum, QueueSet.InOrder, Agree;
      promises := promises[j := promises[j].(program := rest)];
      queue.SubmitJobBatch([j], Normal);
      wake := false;
    }

    /** The last cached job is resumed. */
    method RunLastCached()
      requires Valid([]) && cacheIndex > 0
      modifies this`promises, this`nextJob, this`counts, this`wake, this`resumed, this`cacheIndex, queue
      ensures Valid([]) && Extends(old(promises), promises)
      ensures old(Left([])) == Left([]) + 1 && resumed == old(resumed) + 1
      ensures Iterated(old(Look()), Look(), cache.Length)
      ensures old(Cached()) != [] && Cached() == old(Cached())[..|old(Cached())| - 1]
    {
      ghost var before := Look();
      cacheIndex := cacheIndex - 1;
      var j := cache[cacheIndex];
      assert before.cached == Cached() + [j];
      PopIsConsistent(promises, counts, Queued(), Cached(), j);
      hide Consistent, Sum, QueueSet.InOrder, Resumed, Extends, Agree;
      assert Look() == before.(cached := before.cached[..cacheIndex]);
      ExecuteJob(j);
      IteratedByRunning(before, Look(), cache.Length);
    }

    /** The first queued jobs become the cache, which is empty. */
    method FillCache() returns (dequeued: nat)
      requires Valid([]) && cacheIndex == 0
      modifies this`cacheIndex, queue, cache
      ensures Valid([]) && Left([]) == old(Left([])) && dequeued == Min(cache.Length, |old(Queued())|)
      ensures Cached() == old(Queued())[..dequeued] && Queued() == old(Queued())[dequeued..]
      ensures |Queued()| == |old(Queued())| - dequeued && old(Cached()) == []
      ensures dequeued == 0 <==> old(Queued()) == []
      ensures Iterated(old(Look()), Look(), cache.Length)
    {
      ghost var before := Look();
      queue.localSet.WithoutIsSuffix(cache.Length);
      hide Consistent, Sum, QueueSet.Without, Agree;
      dequeued := queue.TryPopBulk(cache, cache.Length);
      FillIsConsistent(promises, counts, old(Queued()), dequeued);
      cacheIndex := dequeued;
      IteratedByFilling(before, Look(), cache.Length);
    }

    /**
     * One iteration: it resumes the last cached job, or else caches the first queued ones.
     * It reports an empty queue exactly when there is no job to run.
     */
    method WorkerThreadIteration() returns (state: IterationState)
      requires Valid([])
      modifies this`promises, this`nextJob, this`counts, this`wake, this`resumed, this`cacheIndex, queue, cache
      ensures Valid([]) && Extends(old(promises), promises)
      ensures state.EmptyQueue? <==> old(Queued()) == [] && old(Cached()) == []
      ensures Iterated(old(Look()), Look(), cache.Length)
      ensures state.Executed? ==> old(Left([])) == Left([]) + 1 && resumed == old(resumed) + 1
      ensures !state.Executed? ==> Left([]) == old(Left([])) && resumed == old(resumed)
      ensures state.Executed? ==> |old(Cached())| > 0 && Cached() == old(Cached())[..|old(Cached())| - 1]
      ensures state.FilledCache? ==> |Queued()| < |old(Queued())| && promises == old(promises)
    {
      hide *;
      if cacheIndex > 0 {
        RunLastCached();
        return Executed;
      }
      var dequeued := FillCache();
      NothingChanged(promises);
      if dequeued > 0 {
        return FilledCache;
      }
      return EmptyQueue;
    }

    /**
     * Runs jobs until the counter is zero, one iteration after the other and none too many.  It
     * never blocks on the wake flag, it terminates, and then every job dispatched with the
     * counter has finished.
     */
    method WaitForCounter(c: Counter) returns (blocked: bool, ghost trace: seq<Snapshot>)
      requires Valid([])
      modifies this`promises, this`nextJob, this`counts, this`wake, this`resumed, this`cacheIndex, queue, cache
      ensures Valid([]) && Extends(old(promises), promises)
      ensures !blocked
      ensures Count(counts, c) == 0
      ensures forall j :: j in promises && promises[j].counter == Some(c) ==> promises[j].done
      ensures resumed - old(resumed) == old(Left([])) - Left([])
      ensures IsRun(trace, old(Look()), Look(), c, cache.Length)
    {
      hide Consistent, Sum, QueueSet.InOrder, Iterated, IsRun, Agree;
      blocked := false;
      trace := [Look()];
      RunStarts(Look(), c, cache.Length);
      while Count(counts, c) > 0
        invariant Valid([]) && Extends(old(promises), promises)
        invariant !blocked
        invariant resumed - old(resumed) == old(Left([])) - Left([])
        invariant IsRun(trace, old(Look()), Look(), c, cache.Length)
        decreases Left([]), |Queued()|
      {
        ghost var before := Look();
        PositiveMeansPending(promises, counts, Queued(), Cached(), c);
        PendingIsWork(before);
        var state := WorkerThreadIteration();
        if state == EmptyQueue {
          // Here the waiter would set the wake flag, and block until another thread clears it.
          blocked := true;
        }
        RunGoesOn(trace, old(Look()), before, Look(), c, cache.Length);
        trace := trace + [Look()];
      }
      ZeroMeansDone(promises, counts, Queued(), Cached(), c);
    }
  }
}

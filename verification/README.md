# Portal engine: verified models of its core

Portal is a C++ engine built from small infrastructure libraries.  This project models the parts of
it whose correctness is hard to see, and proves what they are for.  `dafny verify dfyconfig.toml`
checks everything.

| files | what they model |
|---|---|
| `Scheduler.dfy`, `SchedulerPlaces.dfy`, `SchedulerSteps.dfy`, `SchedulerCache.dfy`, `SchedulerRuns.dfy` | the work-stealing job scheduler as a machine of atomic steps, and where each job is in every run |
| `SchedulerEffects.dfy`, `SchedulerOperations.dfy`, `SchedulerFetch.dfy` | what whole operations of a thread leave, which queued jobs it can get at, and what it has looked at when it finds none |
| `SchedulerCounters.dfy` | fork-join counters over every run |
| `SchedulerWake.dfy`, `SchedulerReturn.dfy`, `SchedulerMoves.dfy`, `SchedulerTwoWaiters.dfy`, `SchedulerDeadlock.dfy` | the shared wake flag: one waiter loses no wake-up and returns; any two can lose one, and then sleep for good |
| `SchedulerNested.dfy` | jobs that themselves wait |
| `WorkerQueue.dfy`, `CountedQueue.dfy` | a worker's queues; their size counters while operations are under way |
| `SoloJobs.dfy`, `SoloScheduler.dfy` | the scheduler without workers, where waiting runs the jobs |
| `EntityForest.dfy`, `EntityHierarchy.dfy`, `EntityOrder.dfy`, `EntityTraversal.dfy` | the intrusive entity forest, its edits and its depth-first iterator |
| `ModuleLevels.dfy`, `ModuleOrder.dfy`, `ModuleStack.dfy` | module levels, the dependency graph and the lifecycle order |
| `Words.dfy`, `UInt128.dfy`, `UInt128Decimal.dfy` | two-word 128-bit arithmetic, and its decimal form |
| `PoolAllocator.dfy`, `StackAllocator.dfy` | the pool with its embedded free list; the bump stack and the ring of them |
| `BufferStream.dfy` | the growable byte stream |
| `PropertyCodec.dfy`, `ValueCodec.dfy`, `WireFormat.dfy`, `ValueRoundTrip.dfy`, `BinarySerializer.dfy`, `ReservedSlots.dfy`, `BinaryDeserializer.dfy` | the sequential serializer down to its bytes |
| `ReentrantLock.dfy` | the reentrant spin lock as steps |
| `Basics.dfy`, `Wrappers.dfy`, `JobTypes.dfy` | what several of them share |

Code that changes objects step by step is modelled by classes whose methods follow the original's
branches and loops; every method states its whole effect, mostly through a specification function.
Protocols between threads are machines: one step for each atomic access to shared memory, any thread
next, and theorems about every schedule.

## What the machines assume

* Atomic accesses are sequentially consistent, and `enqueue_bulk` succeeds.
* In the scheduler's machine a queue is a multiset and a dequeue may come back with any part of what
  is there, so its guarantees also hold when the queue library misses jobs.  The run that loses a
  wake-up does not use this freedom: `ThoroughRun` says that none of its dequeues misses a job.
* One thread outside the pool uses the global context.  The stealing victim and the moment of a
  migration are arbitrary.
* A job that another job awaits has not been dispatched itself; a job suspends only if it has been.
* `job_cache_size` is at least 1 where a run has to make progress.

## Where the code does not do what its comments or tests suggest

* `scheduler.h` describes the signal as waking any thread blocked on a counter.  A second waiter can
  set the flag again between a finalizer's clear and the first waiter's sleep:
  `TwoWaitersLoseAWakeUp` gives the run for any two threads of any pool.  Both threads then sleep, one
  of them with its counter at zero, and `TwoWaitersDeadlock` shows that this is a deadlock: if one of
  the two is the outside thread, as in a pool of one worker, no continuation ends it; if both are
  workers, only a later call of the outside thread can.  `SafeExactlyForOneWaiter` has the exact
  condition on which threads wait.
* `binary_serialization.h` says the type byte comes before the container byte and that element counts
  have 4 or 8 bytes.  The code writes the container byte first and counts of 2 or 8 bytes.  So a
  string or vector of 65536 elements or more is not read back unless `large_element_size` is set
  (`PropertyRoundTrip`, `RoundTrip`).
* With `pack_elements`, GLM vectors and matrices are written without a count and read with a count of
  zero, so they never come back; and the header does not carry that flag (`HeaderRoundTrip`).
* The deserializer constructor that is given parameters does not skip a header, whatever they say
  (`HeaderInTheWay`).
* Reading a vector of complex elements appends to what the output holds (`RoundTripNeedsBlankOutput`).
* The pools' `clear` stores a null pointer in the last slot and at once overwrites it; the chain ends at
  the end of the pool instead.  `BucketPoolAllocator::clear` does not reset the count of allocated
  buckets (`GetAllocationSize`), and a pool of capacity 0 never knows that it is full.
* `set_parent` does not look for cycles: it closes one exactly when the new parent is the entity itself
  or a descendant (`AcyclicUnlessBelow`).
* `build_dependency_graph` does not reset the dirty flag, and `clean` leaves the tag lists as they were.
* `seekoff` of the stream writer counts from the current position for `end` as for `cur`.

## Model

| member | source | states |
|---|---|---|
| `SchedulerRuns.EveryJobInOnePlace` | core/portal/core/jobs/scheduler.cpp:120-294 | After any schedule a dispatched job is in exactly one queue, cache, thread's hands or the finished set, once; any other job is nowhere |
| `SchedulerCache.FetchesIntoEmptyCache` | core/portal/core/jobs/scheduler.cpp:187-248 | After any schedule, nested iterations inside running jobs included, a thread that is fetching runs no job above that code and has an empty cache; no cache holds more than its size |
| `SchedulerRuns.PublishKeepsGood` | core/portal/core/jobs/scheduler.cpp:206-245 | Making a fetched batch the cache, which overwrites its slots, keeps every job in one place if and only if the cache was empty |
| `SchedulerRuns.NeverRunTwice` | core/portal/core/jobs/scheduler.cpp:187-294 | A job that one thread is running is in no other thread's hands, and in no queue or cache |
| `SchedulerEffects.EveryQueuedJobCanBeFetched` | core/portal/core/jobs/scheduler.cpp:187-275 | From every reachable state a thread at the start of an iteration with an empty cache can, by itself, cache any job of its own queues, of another worker's stealable ones, or of the global one, whatever the priority |
| `SchedulerEffects.EveryCachedJobCanRun` | core/portal/core/jobs/scheduler.cpp:189-193 | And can then run it, with just that job gone from the cache |
| `SchedulerFetch.EmptyReportIsTrue` | core/portal/core/jobs/scheduler.cpp:187-248 | An iteration that misses no job reports an empty queue only if each local queue of the worker, each stealable queue of its victim and each global queue was empty at some moment since it began |
| `SchedulerFetch.HigherComesFirst` | core/portal/core/jobs/worker_queue.cpp:56-79 | Jobs are only taken once the same queue had none of a higher priority, and from elsewhere only once the worker's own queues were empty |
| `SchedulerOperations.DispatchQueues` | core/portal/core/jobs/scheduler.cpp:120-146 | A dispatch queues its batch in the dispatching thread's local queue of its priority, announces it with its counter, and changes nothing else |
| `SchedulerOperations.SuspendQueuesAgain` | core/portal/core/jobs/job.cpp:29-53 | A job that suspends is queued again with normal priority and its promise; the flag is cleared and the sleepers woken |
| `SchedulerOperations.FinishSignals` | core/portal/core/jobs/job.cpp:55-76 | A job that finishes is done, its counter is one lower, the flag is cleared and the sleepers are woken |
| `SchedulerOperations.AwaitRunsChild` | core/portal/core/jobs/job.cpp:181-192 | An awaited job runs at once in a call of its own |
| `SchedulerOperations.AwaitedJobReturns` | core/portal/core/jobs/job.cpp:55-76 | Its end returns control without a signal |
| `SchedulerOperations.MigrationMoves` | core/portal/core/jobs/worker_queue.cpp:81-130 | One priority of a migration moves at most 32 jobs from the local to the stealable queue, and changes nothing else |
| `SchedulerOperations.EveryLocalJobCanBecomeStealable` | core/portal/core/jobs/worker_queue.cpp:81-130 | Any local job of a worker can be made stealable by its next migration, whatever its priority |
| `SchedulerCounters.CounterCountsOpenJobs` | core/portal/core/jobs/scheduler.cpp:120-146 | In every reachable state a counter is the number of jobs announced with it that have not finalized, so it is never negative |
| `SchedulerCounters.FinalizeNeverUnderflows` | core/portal/core/jobs/job.cpp:55-76 | When a job with a counter finalizes, that counter is at least 1 |
| `SchedulerCounters.WaitReturnsOnlyWhenDone` | core/portal/core/jobs/scheduler.cpp:72-109 | When a wait returns, each job given its counter has finalized, or is in a dispatch call that has still to raise the counter |
| `SchedulerCounters.PromisesLast` | core/portal/core/jobs/job.cpp:29-53 | Over any continuation of a run a job keeps its counter, suspensions included, and stays finished once it has |
| `SchedulerWake.NoWakeUpIsLost` | core/portal/core/jobs/scheduler.cpp:80-101 | If one thread alone waits and sleeps with its counter at zero, another thread that lowered that counter still has its clear or notify to do |
| `SchedulerReturn.WaiterReturns` | core/portal/core/jobs/scheduler.cpp:72-109 | Once its counter stays at zero and the signals for it are done, the sole waiter never sleeps, can always go on, and is back from its wait after at most four steps of its own, whatever the other threads do |
| `SchedulerWake.FlagMarksTheWaiter` | core/portal/core/jobs/scheduler.cpp:80-101 | With one waiting thread the flag is set only between its setting it and its next look at the counter, so it is clear whenever a wait has returned |
| `SchedulerOperations.WaitLooksAgain` | core/portal/core/jobs/scheduler.cpp:92-101 | A wait that has found no job sets the flag and looks again: it sleeps if the counter is not zero, and otherwise clears the flag and starts over |
| `SchedulerTwoWaiters.TwoWaitersLoseAWakeUp` | core/portal/core/jobs/scheduler.cpp:80-101 | For any two threads of any pool there is a run in which only they wait, missing no job, after which one sleeps with its counter at zero and no signal for it on its way |
| `SchedulerTwoWaiters.SafeExactlyForOneWaiter` | core/portal/core/jobs/scheduler.h:292-296 | A set of waiting threads is safe from that, in a pool of any size, if and only if at most one of them exists |
| `SchedulerDeadlock.TwoWaitersDeadlock` | core/portal/core/jobs/scheduler.cpp:80-101 | After that run the thread never returns from its wait: in every continuation if the outside thread is one of the two, and otherwise in every continuation in which the outside thread does not call the scheduler |
| `SchedulerNested.WaitsForItself` | core/portal/core/jobs/scheduler.cpp:72-109 | A wait called from inside a job of its own counter, at any depth, never returns: no continuation of the run ends it |
| `SchedulerNested.BlocksOnlyAboveOwnJobs` | core/portal/core/jobs/scheduler.cpp:72-109 | Without workers and with no job missed, a wait that goes to the flag, in whatever nest of jobs, has a counter above zero and all open jobs of it beneath it |
| `SchedulerNested.OtherwiseNeverBlocks` | core/portal/core/jobs/scheduler.cpp:72-109 | Without workers and with no job missed, a wait above no job of its own counter, such as one outside any job, never goes to the flag |
| `WorkerQueues.WorkerQueue.SubmitJobBatch` | core/portal/core/jobs/worker_queue.cpp:20-29 | A batch goes to the end of its priority's local queue and nothing else changes; sizes stay right modulo 2^64 |
| `WorkerQueues.WorkerQueue.TryPop` | core/portal/core/jobs/worker_queue.cpp:31-54 | The first local job in the order High, Normal, Low, or none when there is none |
| `WorkerQueues.WorkerQueue.TryPopBulk` | core/portal/core/jobs/worker_queue.cpp:56-79 | Hands out and removes exactly the first jobs of that order, as many as asked for or there are, and touches nothing behind them in the buffer |
| `WorkerQueues.WorkerQueue.AttemptSteal` | core/portal/core/jobs/worker_queue.cpp:139-181 | The same for the stealable queues, although each priority is skipped when its counter reads zero |
| `WorkerQueues.WorkerQueue.MigrateJobsToStealable` | core/portal/core/jobs/worker_queue.cpp:81-137 | At each priority with more than 64 local jobs exactly the first 32 go behind the stealable ones, and with 64 or fewer none; stealable followed by local is the same sequence as before |
| `CountedQueues.CountsFollowLengths` | core/portal/core/jobs/worker_queue.cpp:11-181 | At every step of every interleaving a count is the queue's length, less what is enqueued but not added, plus what is dequeued but not subtracted, modulo 2^64 |
| `CountedQueues.SubmitThenCounts` | core/portal/core/jobs/worker_queue.cpp:20-34 | A batch joins the end of its local queue, and is counted afterwards |
| `CountedQueues.PopThenCounts` | core/portal/core/jobs/worker_queue.cpp:56-79 | A pop takes the first jobs, and counts them out afterwards |
| `CountedQueues.StealThenCounts` | core/portal/core/jobs/worker_queue.cpp:139-181 | So does a thief that reads a count above zero |
| `CountedQueues.StealPassesOn` | core/portal/core/jobs/worker_queue.cpp:139-181 | One that reads zero leaves everything alone |
| `CountedQueues.MigrationMoves` | core/portal/core/jobs/worker_queue.cpp:81-110 | A migration that reads more than 64 joins the first 32 jobs to the end of the stealable queue in order |
| `CountedQueues.MigrationPassesOn` | core/portal/core/jobs/worker_queue.cpp:81-110 | One that reads 64 or less leaves everything alone |
| `CountedQueues.MigrationCounts` | core/portal/core/jobs/worker_queue.cpp:104-106 | And counts them out of the one and into the other |
| `CountedQueues.GuardSkipsOnlyEmptyQueues` | core/portal/core/jobs/worker_queue.cpp:139-181 | With no add or subtract outstanding the stealing guard passes over a queue if and only if it is empty |
| `CountedQueues.CountCanWrap` | core/portal/core/jobs/worker_queue.cpp:20-79 | A run in which a consumer subtracts before the producer adds, so that an empty queue's count reads 2^64 - 1 |
| `SoloJobs.SuspendIsConsistent` | core/portal/core/jobs/job.cpp:29-53 | A suspended job that is queued again without a counter leaves every counter equal to its number of unfinished jobs |
| `SoloJobs.FinishIsConsistent` | core/portal/core/jobs/job.cpp:55-76 | So does a job that finishes and lowers its counter, which is positive before |
| `SoloScheduler.Scheduler.DispatchJob` | core/portal/core/jobs/scheduler.cpp:120-152 | The new job is queued with its counter raised, and adds exactly its own resumptions to the work that is left |
| `SoloJobs.OfPriorityHas` | core/portal/core/jobs/scheduler.cpp:120-146 | The jobs that a resumption queues at a priority are exactly those it dispatches with it, in order |
| `SoloJobs.AnnouncedIsNumber` | core/portal/core/jobs/scheduler.cpp:141-142 | What it adds to a counter is the number of jobs that it dispatches with that counter |
| `SoloScheduler.Scheduler.DispatchAll` | core/portal/core/jobs/scheduler.cpp:120-152 | Every job dispatched has the program and counter it was dispatched with, and is queued with its priority; each counter goes up by the number of jobs that carry it |
| `SoloScheduler.Scheduler.ExecuteJob` | core/portal/core/jobs/scheduler.cpp:276-294 | One resumption lowers the work that is left by exactly one; the job's part of its program is dispatched, and the job has finished and lowered its counter, or is queued again with normal priority |
| `SoloScheduler.Scheduler.WorkerThreadIteration` | core/portal/core/jobs/scheduler.cpp:187-248 | Runs the last cached job, or else caches the first queued ones; reports an empty queue if and only if no job is queued or cached |
| `SoloScheduler.Scheduler.WaitForCounter` | core/portal/core/jobs/scheduler.cpp:72-109 | Terminates, never blocks on the flag, and leaves every job with that counter finished; it makes one iteration after the other, none of them with an empty queue and none after the counter is zero |
| `EntityForest.LinksDetermineChildren` | engine/portal/engine/components/relationship.h:13-23 | Links of a well-formed registry determine all its child sequences |
| `EntityForest.InOneListOnce` | engine/portal/engine/components/relationship.h:13-23 | No entity is in two child sequences, or twice in one |
| `EntityForest.RemoveKeepsShape` | engine/portal/engine/ecs/entity.cpp:57-85 | Linking the neighbours of a child to each other, at any place in the list, leaves a well-formed registry whose only change is that child's deletion |
| `EntityForest.AppendKeepsShape` | engine/portal/engine/ecs/entity.cpp:29-48 | Linking an entity behind the last child leaves a well-formed registry whose only change is the append |
| `EntityHierarchy.Registry.RemoveChild` | engine/portal/engine/ecs/entity.cpp:57-85 | Refuses, changing nothing, if and only if the entity is not a child; otherwise deletes it from the child sequence, order kept |
| `EntityHierarchy.Registry.SetParent` | engine/portal/engine/ecs/entity.cpp:17-55 | The entity leaves its old sequence and ends the new one; all other sequences and parents stay; the forest stays acyclic if and only if the new parent is neither the entity nor below it |
| `EntityOrder.AcyclicUnlessBelow` | engine/portal/engine/ecs/entity.cpp:17-55 | Changing one parent keeps an acyclic registry acyclic if and only if the new parent's chain does not lead to the entity |
| `EntityOrder.CycleIsClosed` | engine/portal/engine/ecs/entity.cpp:27-28 | Otherwise the entity becomes its own ancestor |
| `EntityOrder.DescendantsAreBelow` | engine/portal/engine/ecs/entity.cpp:163-186 | The depth-first sequence has exactly the entities that have the start further up their parent chain |
| `EntityOrder.DescendantsDistinct` | engine/portal/engine/ecs/entity.cpp:239-294 | No entity comes twice in that sequence |
| `EntityOrder.DescendantsCounted` | engine/portal/engine/ecs/entity.cpp:153-161 | It is one shorter than the subtree is large |
| `EntityTraversal.RecursiveChildIterator.constructor` | engine/portal/engine/ecs/entity.cpp:239-264 | A new iterator has exactly the recursive depth-first sequence ahead of it |
| `EntityTraversal.RecursiveChildIterator.AdvanceToNext` | engine/portal/engine/ecs/entity.cpp:266-294 | Popping an entity and pushing its children yields the next of the sequence |
| `EntityTraversal.RecursiveChildIterator.Increment` | engine/portal/engine/ecs/entity.cpp:306-310 | One step leaves the rest of the sequence |
| `EntityTraversal.DescendantsCount` | engine/portal/engine/ecs/entity.cpp:153-161 | The loop over the iterator terminates with the size of the subtree less one |
| `EntityTraversal.IsAncestorOf` | engine/portal/engine/ecs/entity.cpp:163-186 | True if and only if the entity is further up the other's parent chain |
| `ModuleLevels.LevelMeansNoCycle` | application/portal/application/modules/module_stack.cpp:131-134 | A module with a longest dependency path reaches no cycle |
| `ModuleLevels.LevelSearch.ComputeModuleLevel` | application/portal/application/modules/module_stack.cpp:124-160 | Terminates on every finite graph; fails if and only if a cycle is reachable; otherwise gives the length of the longest dependency path, with every stored level right and the visited set as before |
| `ModuleOrder.OrderMeansNoCycle` | application/portal/application/modules/module_stack.cpp:131-134 | Modules whose dependencies all come earlier reach no cycle |
| `ModuleOrder.SortByLevel` | application/portal/application/modules/module_stack.cpp:54-60 | A permutation sorted by level |
| `ModuleOrder.SortedIsInOrder` | application/portal/application/modules/module_stack.cpp:54-60 | Sorted by level, every module comes after all it depends on |
| `ModuleOrder.FillBuckets` | application/portal/application/modules/module_stack.cpp:42-52 | Each level's bucket has exactly the modules of that level, once; there is no empty bucket at the end, save the only one |
| `ModuleOrder.TaggedHas` | application/portal/application/modules/module_stack.cpp:68-79 | The sublist of a tag has exactly the modules with the tag |
| `ModuleOrder.TaggedInOrder` | application/portal/application/modules/module_stack.cpp:62-79 | It keeps dependencies first |
| `ModuleStacks.ModuleStack.FindModule` | application/portal/application/modules/module_lookup.h:72-83 | The first registered module of the kind, or none |
| `ModuleStacks.ModuleStack.LookUp` | application/portal/application/modules/module_lookup.h:35-57 | Succeeds if and only if every wanted kind is registered, with the first module of each |
| `ModuleStacks.ModuleStack.AddModule` | application/portal/application/modules/module_stack.h:76-82 | Fails, changing nothing, if and only if a dependency is missing; otherwise appends the module, and the stack stays in dependency order |
| `ModuleStacks.ModuleStack.BuildDependencyGraph` | application/portal/application/modules/module_stack.cpp:31-80 | Fails if and only if some module reaches a cycle, never on a stack that AddModule has built; otherwise permutes the modules into dependency order, partitions them by level and rebuilds each tag's sublist |
| `ModuleStacks.ModuleStack.BeginFrame` | application/portal/application/modules/module_stack.cpp:82-88 | Calls the frame modules in order, none before one that it depends on |
| `ModuleStacks.ModuleStack.CallUpdate` | application/portal/application/modules/module_stack.cpp:99-105 | The same for the update modules |
| `ModuleStacks.ModuleStack.CallGuiUpdate` | application/portal/application/modules/module_stack.cpp:107-113 | The same for the gui update modules |
| `ModuleStacks.ModuleStack.CallPostUpdate` | application/portal/application/modules/module_stack.cpp:115-121 | The same for the post update modules |
| `ModuleStacks.ModuleStack.EndFrame` | application/portal/application/modules/module_stack.cpp:90-97 | Calls the modules in reverse, none after one that depends on it |
| `ModuleStacks.ModuleStack.Clean` | application/portal/application/modules/module_stack.cpp:22-28 | Destroys the modules in reverse, none before one that depends on it, even with modules added since the last rebuild |
| `UInt128.PlusIsAddition` | core/portal/core/common.h:175-180 | Addition modulo 2^128 |
| `UInt128.MinusIsSubtraction` | core/portal/core/common.h:182-187 | Subtraction modulo 2^128 |
| `UInt128.NegateIsNegation` | core/portal/core/common.h:172-173 | Negation modulo 2^128 |
| `UInt128.AddOverflow` | core/portal/core/common.h:46-63 | The wrapped sum, and whether it wrapped |
| `UInt128.SubOverflow` | core/portal/core/common.h:65-82 | The wrapped difference, and whether it wrapped |
| `UInt128.UMulIsExact` | core/portal/core/common.h:189-203 | The two words are the exact product; none of the partial products or sums overflows 64 bits |
| `UInt128.TimesIsMultiplication` | core/portal/core/common.h:205-210 | Multiplication modulo 2^128 |
| `UInt128.ShiftLeftIsMultiplication` | core/portal/core/common.h:138-153 | Shifting left by n < 128 multiplies by 2^n modulo 2^128 |
| `UInt128.ShiftRightIsDivision` | core/portal/core/common.h:155-170 | Shifting right by n < 128 divides by 2^n |
| `UInt128Decimal.CarryLookup` | core/portal/core/common.h:226-230 | The binary table tells whether two remainders by 5 carry |
| `UInt128Decimal.RemainderLookup` | core/portal/core/common.h:252-254 | The octal table gives the sum of two remainders by 5, modulo 5 |
| `UInt128Decimal.DivideIsDivision` | core/portal/core/common.h:212-234 | Table-based division by 5 and 10 is the quotient, for every 128-bit value |
| `UInt128Decimal.RemainderIsRemainder` | core/portal/core/common.h:236-263 | Table-based remainder by 2, 5 and 10 is the remainder |
| `UInt128Decimal.FormatDecimal` | core/portal/core/custom_logger_formatters.h:244-263 | The loop terminates with the decimal digits of the value |
| `UInt128Decimal.DecimalDenotes` | core/portal/core/custom_logger_formatters.h:253-262 | Those digits evaluate to the value and have no leading zero |
| `UInt128Decimal.DecimalIsUnique` | core/portal/core/custom_logger_formatters.h:253-262 | No other such string does |
| `PoolAllocators.PartitionCounted` | core/portal/core/memory/pool_allocator.h:94-154 | Free and live slots together are as many as the capacity |
| `PoolAllocators.PoolAllocator.Clear` | core/portal/core/memory/pool_allocator.h:142-154 | All slots free in ascending order, chained through memory up to the end of the pool |
| `PoolAllocators.PoolAllocator.Alloc` | core/portal/core/memory/pool_allocator.h:94-106 | Fails if and only if no slot is free; otherwise pops the slot freed last |
| `PoolAllocators.PoolAllocator.Free` | core/portal/core/memory/pool_allocator.h:112-128 | Pushes the slot, leaving every other live slot's content alone; null does nothing |
| `PoolAllocators.PoolAllocator.Write` | core/portal/core/memory/pool_allocator.h:23-26 | Whatever an owner stores in a live slot, the free list stays intact |
| `PoolAllocators.BucketPoolAllocator.Alloc` | core/portal/core/memory/pool_allocator.h:243-259 | As the pool's, with the count of buckets kept |
| `PoolAllocators.BucketPoolAllocator.Free` | core/portal/core/memory/pool_allocator.h:265-281 | As the pool's, with the count of buckets kept |
| `PoolAllocators.BucketPoolAllocator.GetAllocationSize` | core/portal/core/memory/pool_allocator.h:284-309 | The count is right if and only if the pool was never cleared with buckets allocated |
| `StackAllocators.BlocksApart` | core/portal/core/memory/stack_allocator.cpp:21-33 | Blocks of a tiled stack do not overlap |
| `StackAllocators.OnlyTheLastCanGo` | core/portal/core/memory/stack_allocator.cpp:35-45 | Lowering the top for a freed block keeps the tiling if and only if it was the last block |
| `StackAllocators.StackAllocator.Alloc` | core/portal/core/memory/stack_allocator.cpp:21-33 | Fails if and only if the sum of top and size, wrapped at 2^64, is behind the end; otherwise the new block follows the others, and the tiling is kept if and only if the sum did not wrap |
| `StackAllocators.StackAllocator.Free` | core/portal/core/memory/stack_allocator.cpp:35-45 | Fails if and only if the pointer is unknown; freeing the last block takes just it away, and freeing a block of no bytes takes none |
| `StackAllocators.StackAllocator.FreeToMarker` | core/portal/core/memory/stack_allocator.cpp:57-61 | Exactly the blocks allocated after the marker are gone |
| `StackAllocators.BufferedAllocator.Alloc` | core/portal/core/memory/stack_allocator.h:280-283 | The allocation of the current buffer, with its result; no other buffer changes |
| `StackAllocators.BufferedAllocator.Free` | core/portal/core/memory/stack_allocator.h:305-308 | The free of the current buffer; no other buffer changes |
| `StackAllocators.BufferedAllocator.FrameApart` | core/portal/core/memory/stack_allocator.h:280-308 | Two live blocks of the current frame never overlap |
| `StackAllocators.BufferedAllocator.SwapOften` | core/portal/core/memory/stack_allocator.h:268-272 | A frame's blocks survive fewer swaps than there are buffers, and no more |
| `StackAllocators.BufferedAllocator.LaterFrames` | core/portal/core/memory/stack_allocator.h:268-308 | After a swap, any run of allocations, frees of any pointer and further swaps, fewer in all than there are buffers, leaves what the frame allocated unchanged |
| `BufferStreams.GrowthIsAmortised` | core/portal/core/buffer_stream.cpp:149-167 | Each growth keeps the capacity within the initial one, 1024, or 3/2 of the furthest written position, and all copying within 3 times the capacity |
| `BufferStreams.GrownIsLeast` | core/portal/core/buffer_stream.cpp:149-156 | The new capacity is the least that has the room required and is 1024 at first, or one and a half times the old one |
| `BufferStreams.BufferStreamWriter.Grow` | core/portal/core/buffer.h:141-153 | A larger buffer with the same bytes at the front |
| `BufferStreams.BufferStreamWriter.Xsputn` | core/portal/core/buffer_stream.cpp:96-109 | The file that the stream stands for is overwritten at the position; the bounds hold over any run |
| `BufferStreams.BufferStreamWriter.Sputc` | core/portal/core/buffer_stream.cpp:79-94 | The same for one byte |
| `BufferStreams.BufferStreamWriter.Seekoff` | core/portal/core/buffer_stream.cpp:111-142 | Moves the position if and only if the target is within the capacity, and says which |
| `BufferStreams.BufferStreamWriter.GetBuffer` | core/portal/core/buffer_stream.h:35-35 | The copy agrees with the file before the position |
| `BufferStreams.BufferStreamReader.Xsgetn` | core/portal/core/buffer_stream.cpp:20-32 | The next bytes, as many as asked for or left |
| `BufferStreams.BufferStreamReader.Seekoff` | core/portal/core/buffer_stream.cpp:34-66 | Moves the position if and only if the target is within the buffer |
| `BufferStreams.WriteThenRead` | core/portal/core/buffer_stream.cpp:20-109 | What is written at a position is what a reader finds there |
| `PropertyCodec.BytesBack` | serialization/portal/serialization/serialize/binary_serialization.cpp:148-157 | A number written in k bytes reads back modulo 256^k |
| `PropertyCodec.PropertyRoundTrip` | serialization/portal/serialization/serialize/binary_serialization.cpp:148-243 | A property is read back, the rest of the stream untouched, if and only if its element count fits the bytes provided for it and its value is below 2^63 bytes |
| `PropertyCodec.Misread` | serialization/portal/serialization/serialize/binary_serialization.cpp:221-243 | Otherwise the reading fails, or fewer elements or bytes are read |
| `PropertyCodec.HeaderRoundTrip` | serialization/portal/serialization/serialize/binary_serialization.cpp:62-131 | The header gives the parameters back if and only if elements are not packed |
| `WireFormats.PropertyBytes` | serialization/portal/serialization/serialize/binary_serialization.cpp:148-157 | A property is its container, its type, its number of elements in two bytes or eight (none for scalars and packed vectors), and its value |
| `WireFormats.ElementSizes` | serialization/portal/serialization/serialize/binary_serialization.cpp:9-42 | How many bytes an element of each type has |
| `WireFormats.PropertyRead` | serialization/portal/serialization/serialize/binary_serialization.cpp:221-243 | Just these bytes are read back, with the 64-bit product of number and size |
| `WireFormats.ScalarBytes` | serialization/portal/serialization/serialize.h:215-246 | A scalar is container 1, its type and 1, 2, 4, 8 or 16 bytes |
| `WireFormats.ScalarRead` | serialization/portal/serialization/serialize.h:683-711 | It is read from exactly these bytes, and from no other container or type |
| `WireFormats.TextBytes` | serialization/portal/serialization/serialize.h:305-337 | A string goes out with a NUL that counts |
| `WireFormats.TextRead` | serialization/portal/serialization/serialize.h:774-792 | Strings are read with a NUL or without, from characters only |
| `WireFormats.NumbersBytes` | serialization/portal/serialization/serialize.h:283-296 | A vector of fundamental elements |
| `WireFormats.NumbersRead` | serialization/portal/serialization/serialize.h:753-765 | It is read from an array of its type only |
| `WireFormats.TupleBytes` | serialization/portal/serialization/serialize.h:345-436 | A GLM vector or matrix is written with its number of elements, unless elements are packed |
| `WireFormats.TupleRead` | serialization/portal/serialization/serialize.h:797-829 | A GLM vector or matrix is read from its container, type and length only |
| `WireFormats.ListBytes` | serialization/portal/serialization/serialize.h:258-275 | A nested vector is its number of elements, and the elements in order |
| `WireFormats.ListAppends` | serialization/portal/serialization/serialize.h:722-745 | Elements read into a vector that holds some go behind them |
| `WireFormats.MapBytes` | serialization/portal/serialization/serialize.h:444-459 | A map is its number of entries, and each key followed by its value |
| `WireFormats.LaterEntryWins` | serialization/portal/serialization/serialize.h:840-862 | An entry read replaces the one with its key, or is added, and changes no other |
| `WireFormats.MaybeBytes` | serialization/portal/serialization/serialize.h:508-514 | An optional is a flag, 0 or 1, and the value if there is one |
| `WireFormats.MaybeRead` | serialization/portal/serialization/serialize.h:913-931 | Only a flag of zero means that an optional has no value |
| `WireFormats.RecordBytes` | serialization/portal/serialization/serialize.h:526-540 | A record is its fields in order |
| `WireFormats.HeaderBytes` | serialization/portal/serialization/serialize/binary_serialization.cpp:63-131 | The four bytes of a header |
| `WireFormats.HeaderRead` | serialization/portal/serialization/serialize/binary_serialization.cpp:83-131 | Any four such bytes are read as one, and only two flags are looked at |
| `WireFormats.ShortStringsComeBack` | serialization/portal/serialization/serialize/binary_serialization.cpp:44-49 | Under the default parameters a string is read back if and only if it has fewer than 65535 characters |
| `WireFormats.ShortVectorsComeBack` | serialization/portal/serialization/serialize/binary_serialization.cpp:44-49 | And a vector of fundamental elements if and only if it has fewer than 65536 of them |
| `ValueRoundTrip.RoundTrip` | serialization/portal/serialization/serialize.h:215-950 | For every nested shape, a value is read back into a blank output with everything behind it untouched if and only if all its counts fit |
| `ValueRoundTrip.RoundTripNeedsBlankOutput` | serialization/portal/serialization/serialize.h:723-743 | A value whose counts fit is read back if and only if no vector read in place held elements |
| `ValueRoundTrip.MisreadEntry` | serialization/portal/serialization/serialize.h:841-862 | A wrongly read map entry is never made up for by later ones |
| `BinarySerializers.FilledIsWritten` | serialization/portal/serialization/serialize/binary_serialization.cpp:159-190 | Overwriting a slot's zeros gives the stream that had the value there from the start |
| `ReservedSlots.FilledLater` | serialization/portal/serialization/serialize.h:602-649 | Whatever is added, reserved and filled, in whatever order: each patch at a position taken at reservation lies in the stream, and the bytes are those of the properties with the values in place |
| `ReservedSlots.FilledInAnyOrder` | serialization/portal/serialization/serialize.h:602-649 | Runs of writes that fill the same slots with the same values, in any order and at any time after reserving them, leave the same bytes |
| `ReservedSlots.FilledIsAtOnce` | serialization/portal/serialization/serialize.h:585-614 | Those bytes are the ones of a run that reserves nothing and adds each value in its turn |
| `ReservedSlots.Perform` | serialization/portal/serialization/serialize/binary_serialization.cpp:148-190 | The serializer leaves just these bytes, and hands out just these positions |
| `BinarySerializers.SlotsStay` | serialization/portal/serialization/serialize.h:602-649 | Later properties and filled slots move no slot |
| `BinarySerializers.BinarySerializer.AddProperty` | serialization/portal/serialization/serialize/binary_serialization.cpp:148-157 | Appends exactly the encoding |
| `BinarySerializers.BinarySerializer.ReserveSlot` | serialization/portal/serialization/serialize/binary_serialization.cpp:159-177 | Appends a property of zeros and returns where its value starts |
| `BinarySerializers.BinarySerializer.WriteAt` | serialization/portal/serialization/serialize/binary_serialization.cpp:179-190 | Changes just that property's value, and the put position is at the end again |
| `BinarySerializers.BinarySerializer.AddValue` | serialization/portal/serialization/serialize.h:215-533 | Appends exactly what the specification of the format says, for every shape |
| `BinarySerializers.BinarySerializer.AddCountLater` | serialization/portal/serialization/serialize.h:585-614 | Reserving a number, writing any series of values and filling the slot gives the stream with the number in front |
| `BinarySerializers.CountedIsVector` | serialization/portal/serialization/serialize.h:585-614 | With elements of one shape, and their number, that is the stream of the vector overload |
| `BinaryDeserializers.BinaryDeserializer.GetProperty` | serialization/portal/serialization/serialize/binary_serialization.cpp:221-243 | Reads what the specification says, with the 64-bit product of count and size, and the value always fits into the buffer |
| `BinaryDeserializers.BinaryDeserializer.GetValue` | serialization/portal/serialization/serialize.h:683-960 | Reads what the specification says, for every shape and any output |
| `BinaryDeserializers.WriteThenRead` | serialization/portal/serialization/serialize/binary_serialization.cpp:134-219 | A new deserializer gives back the value that a new serializer has written if all its counts fit, whatever the parameters; and only then, save where a header hides that elements are packed |
| `ValueRoundTrip.PackingIsIgnored` | serialization/portal/serialization/serialize/binary_serialization.cpp:52-61 | For a value whose counts fit, packing elements makes no difference to the stream |
| `BinaryDeserializers.HeaderInTheWay` | serialization/portal/serialization/serialize/binary_serialization.cpp:212-219 | With a header in the stream, a deserializer given parameters can read nothing that was written |
| `BinaryDeserializers.HeaderDecides` | serialization/portal/serialization/serialize/binary_serialization.cpp:212-219 | So it reads a value back, whose counts fit and that has a property, if and only if there is no header |
| `ReentrantLocks.MutualExclusion` | core/portal/core/concurrency/reentrant_spin_lock.h:51-124 | In every interleaving at most one thread holds the lock |
| `ReentrantLocks.CountIsDepth` | core/portal/core/concurrency/reentrant_spin_lock.h:51-124 | With no operation under way the owner is the thread that has acquisitions, and the count is their number while that is below the limit |
| `ReentrantLocks.OnlyOutermostUnlockReleases` | core/portal/core/concurrency/reentrant_spin_lock.h:107-124 | The owner changes from a thread only by the end of that thread's last unlock |
| `ReentrantLocks.OutermostUnlockReleases` | core/portal/core/concurrency/reentrant_spin_lock.h:117-123 | An unlock goes on to release if and only if it leaves no acquisition |
| `ReentrantLocks.OwnerNeverSpins` | core/portal/core/concurrency/reentrant_spin_lock.h:80-102 | A thread that holds the lock never waits for it |
| `ReentrantLocks.LockTakes` | core/portal/core/concurrency/reentrant_spin_lock.h:51-102 | Running alone, lock and try_lock take a lock that is free or the thread's own once more; another thread's they leave alone, and try_lock gives up while lock spins |
| `ReentrantLocks.UnlockGivesBack` | core/portal/core/concurrency/reentrant_spin_lock.h:107-124 | Running alone, unlock takes one acquisition back, and frees the lock with the last |
| `ReentrantLocks.OverflowReleasesEarly` | core/portal/core/concurrency/reentrant_spin_lock.h:100-123 | With one acquisition more than the count can hold, the next unlock lets go of a lock that is still held |
| `ReentrantLocks.TwoHolders` | core/portal/core/concurrency/reentrant_spin_lock.h:80-123 | Then a second thread takes it, so that two hold it |
| `ReentrantLocks.ExcludesUpToLimit` | core/portal/core/concurrency/reentrant_spin_lock.h:51-124 | All runs nested at most n deep keep mutual exclusion if and only if n is at most the number of values of the count |
| `ReentrantLocks.CountsBelowLimit` | core/portal/core/concurrency/reentrant_spin_lock.h:100-123 | The count is the depth in all of them if and only if n is below that number |
| `ReentrantLocks.KeepsUpToLimit` | core/portal/core/concurrency/reentrant_spin_lock.h:107-124 | Only last unlocks release in all of them if and only if n is at most that number |
| `ReentrantLocks.ReleasesUpToLimit` | core/portal/core/concurrency/reentrant_spin_lock.h:117-123 | Unlocks release exactly at depth zero in all of them under the same condition |
| `ReentrantLocks.NeverWaitsUpToLimit` | core/portal/core/concurrency/reentrant_spin_lock.h:80-102 | No holder spins in any of them under the same condition |

## Left out

- NoWakeUpIsLost: is stated for a single waiting thread, because it is false for two; SafeExactlyForOneWaiter has the exact condition.
- WaitReturnsOnlyWhenDone: leaves out jobs of a dispatch call that has written its counter into their promises but not yet raised it, as the code does.
- MutualExclusion, OnlyOutermostUnlockReleases, OutermostUnlockReleases, OwnerNeverSpins: are stated for runs nested at most as deep as the count has values, because they are false beyond; ExcludesUpToLimit, KeepsUpToLimit, ReleasesUpToLimit and NeverWaitsUpToLimit have the exact condition.
- CountIsDepth: the count is a depth below the number of its values; CountsBelowLimit has the exact condition.
- GuardSkipsOnlyEmptyQueues: is stated for queues shorter than 2^64.
- SetParent: a parent handle of another registry is not modelled; stored links name live entities.
- WaitForCounter: its jobs do not wait for counters themselves, because such a job may never return; WaitsForItself, BlocksOnlyAboveOwnJobs and OtherwiseNeverBlocks say exactly when a nested wait blocks.
- Coroutine frames, exceptions and results of jobs, worker start-up and shutdown, and job statistics.
- Weak memory orders, and the inside of the concurrent queue.
- `submit_job`, which is `submit_job_batch` for one job.
- `Registry::destroy_entity` and `Registry::clear`, which walk through entities they have destroyed.
- Live and dead entity handles, and the other components of an entity.
- Module constructors that fail after their dependencies have been resolved, or that register modules themselves.
- Locks of the allocators, sizes and alignment of their objects, and objects' constructors and destructors.
- Where the top ends up after freeing, in the bump allocator, blocks that are neither last nor empty: Free says how it moves, and OnlyTheLastCanGo that the tiling is lost.
- Stream casts to `int`, single-character reads on the stream reader, and buffers the writer does not own.
- Deserializing into C string buffers, raw binary blocks and named-property archives.
- Failed assertions of the deserializer and streams that end early both count as reading nothing.
- Hexadecimal and binary formats of 128-bit integers, and the compound assignment operators.
- `core/portal/core/files` and everything above the modelled libraries: renderer, window, editor, resources, networking and input.

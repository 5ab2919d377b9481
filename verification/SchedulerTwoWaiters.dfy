/**
 * The guarantee of SchedulerWake is for one waiting thread: any two threads that wait can lose a
 * wake-up, and then sleep for good.
 */
module SchedulerTwoWaiters {
  import opened Wrappers
  import opened JobTypes
  import opened Scheduler
  import opened SchedulerWake
  import opened SchedulerMoves

  /** Thread `w` sleeps although its counter is zero and no one is about to signal for it. */
  predicate Stranded(s: State, w: Thread) {
    && Alive(s, w) && Top(s, w).code.Waiting? && Top(s, w).code.point == Asleep
    && Count(s, Top(s, w).code.counter) == 0
    && forall u :: 0 <= u < |s.stack| ==> !Signalling(s, u, Top(s, w).code.counter)
  }

  // ---------------------------------------------------------------- the threads of the run

  const IDLE: seq<Frame> := [Frame(Outside, multiset{})]

  function Running(j: Job): seq<Frame> {
    [Frame(Outside, multiset{}), Frame(Body, multiset{j})]
  }

  function Waits(c: Counter, point: WaitPoint): seq<Frame> {
    [Frame(Waiting(c, point), multiset{})]
  }

  /** The code from which thread `v` waits: a job, or application code outside the pool. */
  function Base(cfg: Config, v: Thread): seq<Frame> {
    if v == cfg.workers then IDLE else Running(0)
  }

  /** All threads are idle but `w` and `v`. */
  function Stacks(cfg: Config, w: Thread, v: Thread, ofW: seq<Frame>, ofV: seq<Frame>): seq<seq<Frame>>
    requires w <= cfg.workers && v <= cfg.workers
  {
    Initial(cfg).stack[w := ofW][v := ofV]
  }

  lemma StacksAt(cfg: Config, w: Thread, v: Thread, ofW: seq<Frame>, ofV: seq<Frame>)
    requires w < v <= cfg.workers
    ensures var st := Stacks(cfg, w, v, ofW, ofV);
            && |st| == cfg.workers + 1 && st[w] == ofW && st[v] == ofV
            && (forall u :: 0 <= u < |st| && u != w && u != v ==> st[u] == IDLE)
            && (forall more :: st[w := more] == Stacks(cfg, w, v, more, ofV))
            && (forall more :: st[v := more] == Stacks(cfg, w, v, ofW, more))
  {
    assert forall u :: 0 <= u <= cfg.workers ==> Initial(cfg).stack[u] == IDLE;
  }

  /** Where the two threads are, and what their counters 1 and 2 are. */
  predicate Scene(cfg: Config, s: State, w: Thread, v: Thread, ofW: seq<Frame>, ofV: seq<Frame>, one: int, two: int)
    requires w < v <= cfg.workers
  {
    s.stack == Stacks(cfg, w, v, ofW, ofV) && Count(s, 1) == one && Count(s, 2) == two
  }

  // ---------------------------------------------------------------- job 2 runs on w, job 1 is queued

  /** Thread `v` runs job 0 if it is a worker. */
  function WithBase(cfg: Config, v: Thread): State {
    if v >= cfg.workers then Initial(cfg)
    else Carrying(cfg, Queued(Initial(cfg), cfg.workers, 0, None), v, 0, Body)
  }

  /** Then `w` runs job 2. */
  function WithTwo(cfg: Config, w: Thread, v: Thread): State
    requires w < |WithBase(cfg, v).stack|
  {
    Carrying(cfg, Queued(WithBase(cfg, v), cfg.workers, 2, Some(2)), w, 2, Body)
  }

  /** One job in the global queue, and then in a thread's hands. */
  lemma QueuedThenCarried(cfg: Config, s: State, t: Thread, j: Job, c: Option<Counter>)
    requires s.pools == map[] && t < |s.stack|
    ensures var s1 := Queued(s, cfg.workers, j, c);
            var next := Carrying(cfg, s1, t, j, Body);
            && s1.pools == map[Local(cfg.workers, Normal) := multiset{j}] && s1.stack == s.stack
            && s1.jobs == s.jobs[j := Promise(c, true, Active)] && s1.count == next.count
            && next.pools == map[] && next.stack == s.stack[t := s.stack[t] + [Frame(Body, multiset{j})]]
            && next.jobs == s.jobs[j := Promise(c, true, Active)]
            && next.count == if c.Some? then s.count[c.value := Count(s, c.value) + 1] else s.count
  {
    assert multiset{} + multiset{j} == multiset{j} && multiset{j} - multiset{j} == multiset{};
  }

  lemma InitialFacts(cfg: Config, w: Thread, v: Thread, ws: set<Thread>)
    requires w < v <= cfg.workers
    ensures Reaches(cfg, [], Initial(cfg), ws) && Scene(cfg, Initial(cfg), w, v, IDLE, IDLE, 0, 0)
    ensures Initial(cfg).pools == map[] && Initial(cfg).jobs == map[]
  {
    assert forall u :: 0 <= u <= cfg.workers ==> Initial(cfg).stack[u] == IDLE;
    assert Stacks(cfg, w, v, IDLE, IDLE) == Initial(cfg).stack;
  }

  lemma BaseFacts(cfg: Config, w: Thread, v: Thread)
    requires w < v <= cfg.workers
    ensures var s := WithBase(cfg, v);
            Scene(cfg, s, w, v, IDLE, Base(cfg, v), 0, 0) && s.pools == map[] && s.jobs.Keys <= {0}
  {
    InitialFacts(cfg, w, v, {});
    StacksAt(cfg, w, v, IDLE, IDLE);
    QueuedThenCarried(cfg, Initial(cfg), v, 0, None);
    assert IDLE + [Frame(Body, multiset{0})] == Running(0);
    hide Stacks, Initial, Reaches, Queued, Carrying;
  }

  lemma TwoFacts(cfg: Config, w: Thread, v: Thread)
    requires w < v <= cfg.workers
    ensures w < |WithBase(cfg, v).stack|
    ensures var s := WithTwo(cfg, w, v);
            Scene(cfg, s, w, v, Running(2), Base(cfg, v), 0, 1) && s.pools == map[] && s.jobs.Keys <= {0, 2}
  {
    BaseFacts(cfg, w, v);
    StacksAt(cfg, w, v, IDLE, Base(cfg, v));
    QueuedThenCarried(cfg, WithBase(cfg, v), w, 2, Some(2));
    assert IDLE + [Frame(Body, multiset{2})] == Running(2);
    hide Stacks, WithBase, Base, Queued, Carrying;
  }

  /** An idle thread may look for work; the outside thread may call the scheduler. */
  lemma IdleCan(cfg: Config, s: State, t: Thread)
    requires t < |s.stack| && s.stack[t] == IDLE
    ensures Alive(s, t) && Looks(s, t) && (t == cfg.workers ==> MayCall(cfg, t, Top(s, t)))
  {
  }

  /** The outside thread dispatches job `j`, and idle worker `t` runs it. */
  lemma DispatchAndRun(cfg: Config, schedule: seq<Action>, s: State, t: Thread, j: Job, c: Option<Counter>,
          ws: set<Thread>)
    returns (more: seq<Action>)
    requires Reaches(cfg, schedule, s, ws) && cfg.cacheSize > 0 && t < cfg.workers < |s.stack|
    requires s.stack[t] == IDLE && s.stack[cfg.workers] == IDLE && s.pools == map[] && j !in s.jobs
    ensures Reaches(cfg, more, Carrying(cfg, Queued(s, cfg.workers, j, c), t, j, Body), ws)
  {
    IdleCan(cfg, s, cfg.workers);
    QueuedThenCarried(cfg, s, t, j, c);
    IdleCan(cfg, Queued(s, cfg.workers, j, c), t);
    hide Reaches, Carrying, Queued, Looks;
    more := DispatchOne(cfg, schedule, s, cfg.workers, j, c, ws);
    more := FetchAndRun(cfg, more, Queued(s, cfg.workers, j, c), t, j, ws);
  }

  lemma StartTwo(cfg: Config, w: Thread, v: Thread, ws: set<Thread>) returns (schedule: seq<Action>)
    requires w < v <= cfg.workers && cfg.cacheSize > 0
    ensures w < |WithBase(cfg, v).stack| && Reaches(cfg, schedule, WithTwo(cfg, w, v), ws)
  {
    InitialFacts(cfg, w, v, ws);
    BaseFacts(cfg, w, v);
    StacksAt(cfg, w, v, IDLE, IDLE);
    StacksAt(cfg, w, v, IDLE, Base(cfg, v));
    hide Stacks, Initial, Reaches, Queued, Carrying;
    schedule := [];
    if v < cfg.workers {
      schedule := DispatchAndRun(cfg, schedule, Initial(cfg), v, 0, None, ws);
    }
    schedule := DispatchAndRun(cfg, schedule, WithBase(cfg, v), w, 2, Some(2), ws);
  }

  // ---------------------------------------------------------------- v waits and runs job 1

  /** Thread `v` waits for counter 2, and inside its wait runs job 1, which the outside thread has dispatched. */
  function Nested(cfg: Config, w: Thread, v: Thread): State
    requires w < |WithBase(cfg, v).stack| && v < |WithTwo(cfg, w, v).stack|
    requires Alive(Queued(WithTwo(cfg, w, v), cfg.workers, 1, Some(1)), v)
  {
    var s := Queued(WithTwo(cfg, w, v), cfg.workers, 1, Some(1));
    Carrying(cfg, Push(s, v, Frame(Waiting(2, Check), multiset{})), v, 1, Body)
  }

  lemma NestedFacts(cfg: Config, w: Thread, v: Thread)
    requires w < v <= cfg.workers
    ensures w < |WithBase(cfg, v).stack| && v < |WithTwo(cfg, w, v).stack|
    ensures var s := Queued(WithTwo(cfg, w, v), cfg.workers, 1, Some(1));
            && s.pools == map[Local(cfg.workers, Normal) := multiset{1}]
            && Scene(cfg, s, w, v, Running(2), Base(cfg, v), 1, 1) && Alive(s, v) && MayCall(cfg, v, Top(s, v))
            && var s1 := Push(s, v, Frame(Waiting(2, Check), multiset{}));
               && s1.pools == s.pools && Looks(s1, v)
               && Scene(cfg, s1, w, v, Running(2), Base(cfg, v) + Waits(2, Check), 1, 1)
               && s1.jobs == s.jobs && 1 in s.jobs && s.jobs[1] == Promise(Some(1), true, Active)
  {
    TwoFacts(cfg, w, v);
    StacksAt(cfg, w, v, Running(2), Base(cfg, v));
    QueuedThenCarried(cfg, WithTwo(cfg, w, v), v, 1, Some(1));
    hide Stacks, WithTwo, WithBase, Queued, Carrying, Base;
    CanNest(cfg, Queued(WithTwo(cfg, w, v), cfg.workers, 1, Some(1)), w, v);
    hide Push, Looks, MayCall, Waits, Alive;
  }

  lemma CanNest(cfg: Config, s: State, w: Thread, v: Thread)
    requires w < v <= cfg.workers && Scene(cfg, s, w, v, Running(2), Base(cfg, v), 1, 1)
    ensures Alive(s, v) && MayCall(cfg, v, Top(s, v))
    ensures var s1 := Push(s, v, Frame(Waiting(2, Check), multiset{}));
            && s1.pools == s.pools && s1.jobs == s.jobs && Looks(s1, v)
            && Scene(cfg, s1, w, v, Running(2), Base(cfg, v) + Waits(2, Check), 1, 1)
  {
    StacksAt(cfg, w, v, Running(2), Base(cfg, v));
    hide Stacks;
  }

  /** All queues are empty: the only handles are in the hands of `w` and `v`. */
  lemma NestedScene(cfg: Config, w: Thread, v: Thread)
    requires w < v <= cfg.workers
    ensures w < |WithBase(cfg, v).stack| && v < |WithTwo(cfg, w, v).stack|
    ensures Alive(Queued(WithTwo(cfg, w, v), cfg.workers, 1, Some(1)), v)
    ensures var s := Nested(cfg, w, v);
            && Scene(cfg, s, w, v, Running(2), Base(cfg, v) + Waits(2, Check) + [Frame(Body, multiset{1})], 1, 1)
            && s.pools == map[] && 1 in s.jobs && s.jobs[1] == Promise(Some(1), true, Active)
  {
    NestedFacts(cfg, w, v);
    StacksAt(cfg, w, v, Running(2), Base(cfg, v) + Waits(2, Check));
    assert multiset{1} - multiset{1} == multiset{};
    hide Stacks, WithTwo, WithBase, Queued, Base, Waits;
  }

  lemma StartNested(cfg: Config, w: Thread, v: Thread, ws: set<Thread>) returns (schedule: seq<Action>)
    requires w < v <= cfg.workers && cfg.cacheSize > 0 && v in ws
    ensures w < |WithBase(cfg, v).stack| && v < |WithTwo(cfg, w, v).stack|
    ensures Alive(Queued(WithTwo(cfg, w, v), cfg.workers, 1, Some(1)), v)
    ensures Reaches(cfg, schedule, Nested(cfg, w, v), ws)
  {
    NestedFacts(cfg, w, v);
    TwoFacts(cfg, w, v);
    StacksAt(cfg, w, v, Running(2), Base(cfg, v));
    var s := WithTwo(cfg, w, v);
    var s1 := Queued(s, cfg.workers, 1, Some(1));
    assert s.stack[cfg.workers] == IDLE;
    IdleCan(cfg, s, cfg.workers);
    hide Stacks, WithTwo, WithBase, Reaches, Queued, Carrying, Looks, MayCall, Top;
    schedule := StartTwo(cfg, w, v, ws);
    schedule := DispatchOne(cfg, schedule, s, cfg.workers, 1, Some(1), ws);
    schedule := CallWait(cfg, schedule, s1, v, 2, ws);
    schedule := FetchAndRun(cfg, schedule, Push(s1, v, Frame(Waiting(2, Check), multiset{})), v, 1, ws);
  }

  // ---------------------------------------------------------------- w decides to sleep, v signals and arms again

  /** Thread `w`, in job 2, waits for counter 1 and is about to sleep. */
  function Decided(s: State, w: Thread): State
    requires Alive(s, w)
  {
    Deciding(Push(s, w, Frame(Waiting(1, Check), multiset{})), w, 1)
  }

  /** No queue and no cache holds a job. */
  predicate Nowhere(s: State) {
    s.pools.Keys <= {Done}
  }

  lemma NoWorkAnywhere(cfg: Config, s: State, t: Thread)
    requires Nowhere(s)
    ensures NoWork(cfg, s, t) && At(s, Cache(t)) == multiset{}
  {
  }

  lemma DecidedScene(cfg: Config, s: State, w: Thread, v: Thread)
    requires w < v <= cfg.workers && s.pools == map[]
    requires Scene(cfg, s, w, v, Running(2), Base(cfg, v) + Waits(2, Check) + [Frame(Body, multiset{1})], 1, 1)
    ensures Alive(s, w) && MayCall(cfg, w, Top(s, w))
    ensures var s1 := Push(s, w, Frame(Waiting(1, Check), multiset{}));
            Alive(s1, w) && Top(s1, w) == Frame(Waiting(1, Check), multiset{}) && Count(s1, 1) == 1 && Nowhere(s1)
    ensures var s2 := Decided(s, w);
            && Scene(cfg, s2, w, v, Running(2) + Waits(1, Enter),
                     Base(cfg, v) + Waits(2, Check) + [Frame(Body, multiset{1})], 1, 1)
            && s2.pools == map[] && s2.jobs == s.jobs && s2.wake
            && Alive(s2, v) && Top(s2, v) == Frame(Body, multiset{1})
  {
    StacksAt(cfg, w, v, Running(2), Base(cfg, v) + Waits(2, Check) + [Frame(Body, multiset{1})]);
    StacksAt(cfg, w, v, Running(2) + Waits(1, Check), Base(cfg, v) + Waits(2, Check) + [Frame(Body, multiset{1})]);
    StacksAt(cfg, w, v, Running(2) + Waits(1, Enter), Base(cfg, v) + Waits(2, Check) + [Frame(Body, multiset{1})]);
    PushThenCode(s, w, Waiting(1, Check), Waiting(1, Enter));
    hide Stacks, Base, WithCode;
  }

  lemma FinishingScene(cfg: Config, s: State, w: Thread, v: Thread)
    requires w < v <= cfg.workers && s.pools == map[] && 1 in s.jobs && s.jobs[1] == Promise(Some(1), true, Active)
    requires Scene(cfg, s, w, v, Running(2) + Waits(1, Enter),
                   Base(cfg, v) + Waits(2, Check) + [Frame(Body, multiset{1})], 1, 1)
    requires Alive(s, v)
    ensures var s1 := Signalled(s, v, 1);
            && Scene(cfg, s1, w, v, Running(2) + Waits(1, Enter), Base(cfg, v) + Waits(2, Check), 0, 1)
            && NobodySleeps(s1) && Nowhere(s1) && Alive(s1, v) && Top(s1, v) == Frame(Waiting(2, Check), multiset{})
  {
    var ofV := Base(cfg, v) + Waits(2, Check);
    StacksAt(cfg, w, v, Running(2) + Waits(1, Enter), ofV + [Frame(Body, multiset{1})]);
    StacksAt(cfg, w, v, Running(2) + Waits(1, Enter), ofV);
    assert (ofV + [Frame(Body, multiset{1})])[..|ofV|] == ofV;
    hide Stacks, Base, At;
  }

  /** Both threads at the flag, `w` at `first` and `v` at `second`; the flag is set. */
  ghost predicate AtFlag(cfg: Config, s: State, w: Thread, v: Thread, first: WaitPoint, second: WaitPoint)
    requires w < v <= cfg.workers
  {
    && Scene(cfg, s, w, v, Running(2) + Waits(1, first), Base(cfg, v) + Waits(2, second), 0, 1)
    && Nowhere(s) && s.wake
  }

  lemma AtFlagNext(cfg: Config, s: State, w: Thread, v: Thread, first: WaitPoint, second: WaitPoint, other: WaitPoint)
    requires w < v <= cfg.workers && AtFlag(cfg, s, w, v, first, second)
    ensures Alive(s, w) && Top(s, w) == Frame(Waiting(1, first), multiset{})
    ensures Alive(s, v) && Top(s, v) == Frame(Waiting(2, second), multiset{})
    ensures AtFlag(cfg, WithCode(s, w, Waiting(1, other)), w, v, other, second)
    ensures AtFlag(cfg, WithCode(s, v, Waiting(2, other)), w, v, first, other)
  {
    StacksAt(cfg, w, v, Running(2) + Waits(1, first), Base(cfg, v) + Waits(2, second));
    assert (Running(2) + Waits(1, first))[2 := Frame(Waiting(1, other), multiset{})] == Running(2) + Waits(1, other);
    assert (Base(cfg, v) + Waits(2, second))[|Base(cfg, v)| := Frame(Waiting(2, other), multiset{})]
        == Base(cfg, v) + Waits(2, other);
    hide Stacks, Base;
  }

  lemma ArmedScene(cfg: Config, s: State, w: Thread, v: Thread)
    requires w < v <= cfg.workers && Nowhere(s)
    requires Scene(cfg, s, w, v, Running(2) + Waits(1, Enter), Base(cfg, v) + Waits(2, Check), 0, 1)
    ensures Alive(s, v)
    ensures AtFlag(cfg, Deciding(s, v, 2), w, v, Enter, Enter)
  {
    AtFlagNext(cfg, s.(wake := true), w, v, Enter, Check, Enter);
    StacksAt(cfg, w, v, Running(2) + Waits(1, Enter), Base(cfg, v) + Waits(2, Check));
    hide Stacks, Base;
  }

  /** Job 1 is finished, and both threads have decided to sleep. */
  lemma BothDecide(cfg: Config, w: Thread, v: Thread) returns (schedule: seq<Action>, s: State)
    requires w < v <= cfg.workers && cfg.cacheSize > 0
    ensures Reaches(cfg, schedule, s, {w, v}) && AtFlag(cfg, s, w, v, Enter, Enter)
  {
    var ws := {w, v};
    NestedScene(cfg, w, v);
    var s0 := Nested(cfg, w, v);
    DecidedScene(cfg, s0, w, v);
    var s1 := Push(s0, w, Frame(Waiting(1, Check), multiset{}));
    NoWorkAnywhere(cfg, s1, w);
    var s2 := Decided(s0, w);
    FinishingScene(cfg, s2, w, v);
    var s3 := Signalled(s2, v, 1);
    NoWorkAnywhere(cfg, s3, v);
    ArmedScene(cfg, s3, w, v);
    s := Deciding(s3, v, 2);
    hide *;
    schedule := StartNested(cfg, w, v, ws);
    schedule := CallWait(cfg, schedule, s0, w, 1, ws);
    schedule := DecideToSleep(cfg, schedule, s1, w, 1, ws);
    schedule := FinishAndSignal(cfg, schedule, s2, v, 1, ws);
    schedule := DecideToSleep(cfg, schedule, s3, v, 2, ws);
  }

  lemma AtFlagStrands(cfg: Config, s: State, w: Thread, v: Thread, second: WaitPoint)
    requires w < v <= cfg.workers && AtFlag(cfg, s, w, v, Asleep, second)
    ensures Stranded(s, w)
  {
    StacksAt(cfg, w, v, Running(2) + Waits(1, Asleep), Base(cfg, v) + Waits(2, second));
    hide Stacks, Base;
  }

  /**
   * Any two threads can wait so that one misses its wake-up.  Thread `w` waits for counter 1
   * inside job 2, and `v` for counter 2; inside its wait `v` runs job 1.  `w` looks at its
   * counter, `v` finishes job 1 and signals, `v` arms the flag again, and only then does `w`
   * go to sleep.
   */
  lemma TwoWaitersLoseAWakeUp(cfg: Config, w: Thread, v: Thread) returns (schedule: seq<Action>)
    requires w < v <= cfg.workers && cfg.cacheSize > 0
    ensures Execute(cfg, schedule).Some? && Waiters(schedule) <= {w, v} && ThoroughRun(cfg, schedule)
    ensures Stranded(Execute(cfg, schedule).value, w)
    ensures AtFlag(cfg, Execute(cfg, schedule).value, w, v, Asleep, Asleep)
  {
    var s;
    schedule, s := BothDecide(cfg, w, v);
    AtFlagNext(cfg, s, w, v, Enter, Enter, Asleep);
    var s1 := WithCode(s, w, Waiting(1, Asleep));
    AtFlagNext(cfg, s1, w, v, Asleep, Enter, Asleep);
    var s2 := WithCode(s1, v, Waiting(2, Asleep));
    AtFlagStrands(cfg, s2, w, v, Asleep);
    assert s.wake && s1.wake;
    hide Reaches, AtFlag;
    schedule := FallAsleep(cfg, schedule, s, w, 1, {w, v});
    schedule := FallAsleep(cfg, schedule, s1, v, 2, {w, v});
    ReachedThoroughly(cfg, schedule, s2, {w, v});
  }

  lemma ReachedThoroughly(cfg: Config, schedule: seq<Action>, s: State, ws: set<Thread>)
    requires Reaches(cfg, schedule, s, ws)
    ensures Execute(cfg, schedule) == Some(s) && Waiters(schedule) <= ws && ThoroughRun(cfg, schedule)
  {
  }

  // ---------------------------------------------------------------- the exact condition

  /** The threads of `ws` that there are: the workers, and the outside thread. */
  function Existing(cfg: Config, ws: set<Thread>): set<Thread> {
    set t | t in ws && t <= cfg.workers
  }

  /**
   * No run in which only threads of `ws` wait strands a thread; when `thorough`, only runs in
   * which no dequeue misses a job are meant.
   */
  ghost predicate NeverStrands(cfg: Config, ws: set<Thread>, thorough: bool) {
    forall schedule: seq<Action>, w: Thread ::
      Execute(cfg, schedule).Some? && Waiters(schedule) <= ws && (thorough ==> ThoroughRun(cfg, schedule)) ==>
        !Stranded(Execute(cfg, schedule).value, w)
  }

  /**
   * The condition of NoWakeUpIsLost is exact: threads can wait safely if and only if at most one
   * of them exists, in a pool of any size, and whether or not dequeues may miss a job.
   */
  lemma SafeExactlyForOneWaiter(cfg: Config, ws: set<Thread>, thorough: bool)
    requires cfg.cacheSize > 0
    ensures NeverStrands(cfg, ws, thorough) <==> |Existing(cfg, ws)| <= 1
  {
    if |Existing(cfg, ws)| <= 1 {
      OneWaiterIsSafe(cfg, ws);
      assert NeverStrands(cfg, ws, false);
    } else {
      var w, v := TwoOf(Existing(cfg, ws));
      var schedule := TwoWaitersLoseAWakeUp(cfg, w, v);
      assert {w, v} <= ws;
      assert !NeverStrands(cfg, ws, thorough);
    }
  }

  lemma TwoOf(ts: set<Thread>) returns (w: Thread, v: Thread)
    requires |ts| > 1
    ensures w in ts && v in ts && w < v
  {
    w :| w in ts;
    assert |ts - {w}| == |ts| - 1;
    v :| v in ts - {w};
    if v < w { w, v := v, w; }
  }

  lemma OnlyTheWaiterSleeps(s: State, only: Thread, w: Thread)
    requires Routine(s, only) && WillWake(s, only)
    ensures !Stranded(s, w)
  {
    if w < |s.stack| {
      assert RoutineIn(w, s.stack[w], only);
    }
  }

  lemma OneWaiterIsSafe(cfg: Config, ws: set<Thread>)
    requires |Existing(cfg, ws)| <= 1
    ensures NeverStrands(cfg, ws, false)
  {
    var waiting := Existing(cfg, ws);
    forall schedule: seq<Action>, w: Thread | Execute(cfg, schedule).Some? && Waiters(schedule) <= ws
      ensures !Stranded(Execute(cfg, schedule).value, w)
    {
      var only: Thread := if waiting == {} then w else SoleMember(waiting);
      assert SoleWaiter(schedule, only) by {
        forall i | 0 <= i < |schedule| && schedule[i].AWait? ensures schedule[i].t == only {
          ActorExists(cfg, schedule, i);
          assert schedule[i].t in Waiters(schedule);
          assert schedule[i].t in waiting;
        }
      }
      ReachedWillWake(cfg, schedule, only);
      OnlyTheWaiterSleeps(Execute(cfg, schedule).value, only, w);
    }
  }

  ghost function SoleMember(ws: set<Thread>): (w: Thread)
    requires ws != {} && |ws| <= 1
    ensures ws == {w}
  {
    var w :| w in ws;
    assert |ws - {w}| == |ws| - 1;
    w
  }
}

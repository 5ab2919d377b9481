/**
 * Jobs that wait.  A wait above a job of its own counter never returns; and without workers,
 * where the waiting thread runs all jobs itself, that is the only way for a wait to block.
 */
module SchedulerNested {
  import opened Wrappers
  import opened Basics
  import opened JobTypes
  import opened Scheduler
  import opened SchedulerPlaces
  import opened SchedulerRuns
  import opened SchedulerCounters
  import opened SchedulerWake
  import opened SchedulerCache
  import opened SchedulerMoves

  // ---------------------------------------------------------------- frames below the top

  /** The frame is the same, or still the same wait. */
  predicate SameCall(f: Frame, g: Frame) {
    f == g || (f.code.Waiting? && g.code.Waiting? && f.code.counter == g.code.counter)
  }

  /** A step takes away at most the top frame. */
  ghost predicate LowerStay(fs: seq<Frame>, gs: seq<Frame>) {
    |gs| >= |fs| - 1 && forall i :: 0 <= i < |fs| - 1 ==> SameCall(fs[i], gs[i])
  }

  lemma FinalizeLower(s: State, t: Thread, j: Job)
    requires Alive(s, t) && j in s.jobs
    ensures t < |Finalize(s, t, j).stack| && LowerStay(s.stack[t], Finalize(s, t, j).stack[t])
  {
    hide At, SetPool, Lowered;
  }

  lemma SubmitLower(s: State, t: Thread)
    requires Alive(s, t) && Top(s, t).code.Submit?
    ensures t < |DoSubmit(s, t).stack| && LowerStay(s.stack[t], DoSubmit(s, t).stack[t])
  {
    hide At, SetPool;
  }

  lemma NotifyLower(s: State, t: Thread)
    requires Alive(s, t)
    ensures t < |Notify(s, t).stack| && LowerStay(s.stack[t], Notify(s, t).stack[t])
  {
    assert Notify(s, t).stack[t] == Woken(s.stack[t][..|s.stack[t]| - 1]);
  }

  lemma SettledLower(fs: seq<Frame>, gs: seq<Frame>)
    requires fs != [] && SettledStack(fs, gs)
    ensures LowerStay(fs, gs)
  {
  }

  lemma OwnLower(cfg: Config, s: State, a: Action, next: State)
    requires Enabled(cfg, s, a) && next == Apply(cfg, s, a)
    ensures a.t < |next.stack| && LowerStay(s.stack[a.t], next.stack[a.t])
  {
    hide At, SetPool, Enlist, SetPhase, Lowered, Finalize, DoSubmit, Settle, Notify;
    if a.AFinalize? {
      FinalizeLower(s, a.t, a.job);
    } else if a.ASubmit? {
      SubmitLower(s, a.t);
    } else if a.ANotifyWake? {
      NotifyLower(s, a.t);
    } else if a.ASettle? {
      SettleStack(s, a.t, a.victim);
      SettledLower(s.stack[a.t], next.stack[a.t]);
    }
  }

  /** A wait for a counter that is not zero stays where it is. */
  lemma TopWaits(cfg: Config, s: State, a: Action, next: State, c: Counter)
    requires Enabled(cfg, s, a) && next == Apply(cfg, s, a)
    requires Top(s, a.t).code.Waiting? && Top(s, a.t).code.counter == c && Count(s, c) > 0
    ensures a.t < |next.stack| && |next.stack[a.t]| >= |s.stack[a.t]|
    ensures SameCall(Top(s, a.t), next.stack[a.t][|s.stack[a.t]| - 1])
  {
    hide At, SetPool;
  }

  // ---------------------------------------------------------------- a wait above a job of its counter

  /** Thread `w` waits for `c` in a call that job `j`, which has that counter, has to return from first. */
  ghost predicate Beneath(s: State, w: Thread, d: nat, e: nat, j: Job, c: Counter) {
    && w < |s.stack| && d < e < |s.stack[w]|
    && s.stack[w][d] == Frame(Body, multiset{j})
    && s.stack[w][e].code.Waiting? && s.stack[w][e].code.counter == c
    && j in s.jobs && s.jobs[j].counter == Some(c)
  }

  ghost predicate AboveJob(s: State, w: Thread, j: Job, c: Counter) {
    exists d: nat, e: nat :: Beneath(s, w, d, e, j, c)
  }

  lemma OwnJobIsOpen(cfg: Config, s: State, w: Thread, d: nat, e: nat, j: Job, c: Counter)
    requires Good(cfg, s) && CountIs(s, c) && Beneath(s, w, d, e, j, c)
    ensures Count(s, c) > 0
  {
    assert TagOk(s, Hand(w, d), j);
    assert j in Open(s.jobs, c);
  }

  lemma WokenIsSameCall(fs: seq<Frame>, i: nat)
    requires i < |fs|
    ensures |Woken(fs)| == |fs| && SameCall(fs[i], Woken(fs)[i])
  {
  }

  lemma FrameStays(cfg: Config, s: State, a: Action, next: State, w: Thread, i: nat)
    requires Enabled(cfg, s, a) && next == Apply(cfg, s, a) && w < |s.stack| && i < |s.stack[w]|
    requires i == |s.stack[w]| - 1 && a.t == w ==>
               s.stack[w][i].code.Waiting? && Count(s, s.stack[w][i].code.counter) > 0
    ensures w < |next.stack| && i < |next.stack[w]| && SameCall(s.stack[w][i], next.stack[w][i])
  {
    if a.t != w {
      StepTouchesOneStack(cfg, s, a, next);
      hide Apply, Enabled, Woken, SameCall, Count;
      WokenIsSameCall(s.stack[w], i);
    } else if i < |s.stack[w]| - 1 {
      hide Apply, Enabled, SameCall, Count;
      OwnLower(cfg, s, a, next);
    } else {
      TopWaits(cfg, s, a, next, s.stack[w][i].code.counter);
      hide Apply, Enabled, SameCall;
    }
  }

  lemma StepKeepsBeneath(cfg: Config, s: State, a: Action, next: State, w: Thread, d: nat, e: nat, j: Job, c: Counter)
    requires Good(cfg, s) && CountIs(s, c) && Beneath(s, w, d, e, j, c)
    requires Enabled(cfg, s, a) && next == Apply(cfg, s, a)
    ensures Beneath(next, w, d, e, j, c)
  {
    OwnJobIsOpen(cfg, s, w, d, e, j, c);
    StepKeepsPromise(cfg, s, a, j);
    hide Apply, Enabled, Good, CountIs, Count;
    FrameStays(cfg, s, a, next, w, d);
    FrameStays(cfg, s, a, next, w, e);
  }

  /** A job that waits for its own counter, or runs something that does, waits forever: no continuation ends it. */
  lemma {:induction false} WaitsForItself(cfg: Config, schedule: seq<Action>, more: seq<Action>, w: Thread, d: nat,
          e: nat, j: Job, c: Counter)
    requires Execute(cfg, schedule).Some? && Beneath(Execute(cfg, schedule).value, w, d, e, j, c)
    requires Execute(cfg, schedule + more).Some?
    ensures Beneath(Execute(cfg, schedule + more).value, w, d, e, j, c)
    decreases |more|
  {
    hide *;
    if more == [] {
      assert schedule + more == schedule;
    } else {
      var before := more[..|more| - 1];
      LastStep(cfg, schedule, more);
      WaitsForItself(cfg, schedule, before, w, d, e, j, c);
      ReachedIsGood(cfg, schedule + before);
      BalancedAt(cfg, schedule + before, c);
      StepKeepsBeneath(cfg, Execute(cfg, schedule + before).value, more[|more| - 1],
                       Execute(cfg, schedule + more).value, w, d, e, j, c);
    }
  }

  lemma BalancedAt(cfg: Config, schedule: seq<Action>, c: Counter)
    requires Execute(cfg, schedule).Some?
    ensures CountIs(Execute(cfg, schedule).value, c)
  {
    ReachedIsBalanced(cfg, schedule);
    hide CountIs, Execute;
  }

  // ---------------------------------------------------------------- without workers

  /** No job of that priority is queued. */
  predicate NoneQueued(s: State, p: Priority) {
    At(s, Local(0, p)) == multiset{}
  }

  /** The priorities that a fetch tries before `p`. */
  predicate TriedBefore(q: Priority, p: Priority) {
    (q.High? && !p.High?) || (q.Normal? && p.Low?)
  }

  predicate AllFetched(s: State) {
    NoneQueued(s, High) && NoneQueued(s, Normal) && NoneQueued(s, Low)
  }

  /** What the thread knows at the code in its top frame, when no one else touches the queue. */
  predicate Knows(s: State, f: Frame) {
    match f.code
    case Iterate => f.held == multiset{}
    case MigrateTake(_) => false
    case MigratePut(_) => false
    case Fill(source, p) =>
      source.Global? && (f.held == multiset{} ==> forall q: Priority :: TriedBefore(q, p) ==> NoneQueued(s, q))
    case Filled(source) =>
      if source.Global? then f.held == multiset{} ==> AllFetched(s) else source.Own? && f.held == multiset{}
    case Waiting(c, point) =>
      point != Check ==> point != Disarm && Count(s, c) > 0 && AllFetched(s) && At(s, Cache(0)) == multiset{}
    case _ => true
  }

  /** In an iteration of a waiting loop the counter is not zero. */
  predicate WorksFor(s: State, fs: seq<Frame>) {
    |fs| >= 2 && fs[|fs| - 2].code.Waiting? && (Last(fs).code.Iterate? || Last(fs).code.Fill? || Last(fs).code.Filled?)
    ==> Count(s, fs[|fs| - 2].code.counter) > 0
  }

  predicate TopAlone(s: State) {
    |s.stack| == 1 && s.stack[0] != [] && Knows(s, Last(s.stack[0])) && WorksFor(s, s.stack[0])
  }

  /** The pools there are without workers. */
  predicate OwnPools(s: State) {
    forall p :: p in s.pools ==> p == Done || p == Cache(0) || (p.Local? && p.context == 0)
  }

  ghost predicate Alone(s: State) {
    TopAlone(s) && CallersOk(s.stack[0]) && OwnPools(s)
  }

  lemma AloneInitially(cfg: Config)
    requires cfg.workers == 0
    ensures Alone(Initial(cfg))
  {
  }

  /** Code that knows nothing of the queue. */
  predicate Plain(code: Code) {
    CallerOk(code) || code.Raise? || code.Submit? || code.ClearWake? || code.NotifyWake?
  }

  lemma PlainKnows(s: State, fs: seq<Frame>)
    requires fs != [] && Plain(Last(fs).code)
    ensures Knows(s, Last(fs)) && WorksFor(s, fs)
  {
  }

  lemma CallersArePlain(fs: seq<Frame>)
    requires CallersOk(fs) && |fs| >= 2
    ensures fs[..|fs| - 1] != [] && Plain(Last(fs[..|fs| - 1]).code)
  {
  }

  lemma FinalizePlain(s: State, t: Thread, j: Job)
    requires Alive(s, t) && j in s.jobs && CallersOk(s.stack[t]) && |s.stack[t]| >= 2
    ensures var next := Finalize(s, t, j);
            |next.stack| == |s.stack| && next.stack[t] != [] && Plain(Last(next.stack[t]).code)
  {
    CallersArePlain(s.stack[t]);
    hide At, SetPool, Lowered, CallersOk;
    assert Finished(s, t, j).stack[t][..|s.stack[t]| - 1] == s.stack[t][..|s.stack[t]| - 1];
  }

  lemma SubmitPlain(s: State, t: Thread)
    requires Alive(s, t) && Top(s, t).code.Submit? && CallersOk(s.stack[t]) && |s.stack[t]| >= 2
    ensures var next := DoSubmit(s, t);
            |next.stack| == |s.stack| && next.stack[t] != [] && Plain(Last(next.stack[t]).code)
  {
    CallersArePlain(s.stack[t]);
    hide At, SetPool, CallersOk;
    var s1 := Release(s, t, Local(t, Top(s, t).code.priority), ClearWake(None));
    assert s1.stack[t][..|s.stack[t]| - 1] == s.stack[t][..|s.stack[t]| - 1];
  }

  lemma NotifyPlain(s: State, t: Thread)
    requires Alive(s, t) && CallersOk(s.stack[t]) && |s.stack[t]| >= 2
    ensures var next := Notify(s, t);
            |next.stack| == |s.stack| && next.stack[t] != [] && Plain(Last(next.stack[t]).code)
  {
    CallersArePlain(s.stack[t]);
    hide CallersOk;
    assert Notify(s, t).stack[t] == Woken(s.stack[t][..|s.stack[t]| - 1]);
  }

  lemma TwoFrames(fs: seq<Frame>)
    requires CallersOk(fs) && !Last(fs).code.Outside?
    ensures |fs| >= 2
  {
  }

  /** Steps of application code, jobs and signals. */
  lemma CallStepPlain(cfg: Config, s: State, a: Action, next: State)
    requires Enabled(cfg, s, a) && next == Apply(cfg, s, a) && CallersOk(s.stack[a.t])
    requires CallStep(a) && !a.AIterate? && !a.ACheck?
    ensures |next.stack| == |s.stack| && next.stack[a.t] != [] && Plain(Last(next.stack[a.t]).code)
  {
    assert Alive(s, a.t);
    if !Top(s, a.t).code.Outside? {
      TwoFrames(s.stack[a.t]);
    }
    hide At, SetPool, Enlist, SetPhase, Finalize, DoSubmit, Notify, CallersOk;
    if a.AFinalize? {
      FinalizePlain(s, a.t, a.job);
    } else if a.ASubmit? {
      SubmitPlain(s, a.t);
    } else if a.ANotifyWake? {
      NotifyPlain(s, a.t);
    }
  }

  /** The start of an iteration, or the return from a wait. */
  lemma LookKnows(cfg: Config, s: State, a: Action, next: State)
    requires Enabled(cfg, s, a) && next == Apply(cfg, s, a) && CallersOk(s.stack[a.t]) && (a.AIterate? || a.ACheck?)
    ensures |next.stack| == |s.stack| && next.stack[a.t] != []
    ensures Knows(next, Last(next.stack[a.t])) && WorksFor(next, next.stack[a.t])
  {
    assert Alive(s, a.t);
    if a.ACheck? {
      TwoFrames(s.stack[a.t]);
      CallersArePlain(s.stack[a.t]);
    }
    hide CallersOk, At;
  }

  lemma CallStepAlone(cfg: Config, s: State, a: Action, next: State)
    requires Enabled(cfg, s, a) && next == Apply(cfg, s, a) && Alone(s) && CallStep(a)
    ensures TopAlone(next)
  {
    assert a.t == 0;
    hide Apply, Enabled, CallersOk, Knows, WorksFor;
    if a.AIterate? || a.ACheck? {
      LookKnows(cfg, s, a, next);
    } else {
      CallStepPlain(cfg, s, a, next);
      PlainKnows(next, next.stack[0]);
    }
  }

  lemma KnowsAgain(s: State, next: State, f: Frame)
    requires next.pools == s.pools && next.count == s.count
    ensures Knows(next, f) == Knows(s, f)
  {
    hide At;
    SamePools(s, next, Cache(0));
    forall q: Priority ensures NoneQueued(next, q) == NoneQueued(s, q) {
      SamePools(s, next, Local(0, q));
    }
    hide NoneQueued;
  }

  /** The points of a waiting loop: from its arming on, the counter is not zero and there is no job to run. */
  lemma WaitStepAlone(cfg: Config, s: State, a: Action, next: State)
    requires Enabled(cfg, s, a) && next == Apply(cfg, s, a) && Alone(s)
    requires a.AArm? || a.ARecheck? || a.ADisarm? || a.AEnterWait? || a.ASpuriousWake?
    ensures TopAlone(next)
  {
    assert a.t == 0;
    var f := Last(next.stack[0]);
    assert f.code.Waiting?;
    KnowsAgain(s, next, f);
    hide CallersOk, OwnPools, At;
  }

  /** Running a cached job. */
  lemma RunAlone(cfg: Config, s: State, a: Action, next: State)
    requires Enabled(cfg, s, a) && next == Apply(cfg, s, a) && |s.stack| == 1 && a.ARunCached?
    ensures TopAlone(next)
  {
    assert a.t == 0 && Last(next.stack[0]).code == Body;
    hide Apply, Enabled, At;
  }

  lemma StartAlone(cfg: Config, s: State, a: Action, next: State)
    requires cfg.workers == 0 && Enabled(cfg, s, a) && next == Apply(cfg, s, a) && Alone(s)
    requires a.AStartFill? || a.AMigrateTake? || a.AMigratePut?
    ensures TopAlone(next)
  {
    assert a.t == 0;
    hide CallersOk, OwnPools, At;
  }

  /** A fetch that comes back with nothing has found nothing. */
  lemma FetchAlone(cfg: Config, s: State, a: Action, next: State)
    requires cfg.workers == 0 && cfg.cacheSize > 0
    requires Enabled(cfg, s, a) && Thorough(cfg, s, a) && next == Apply(cfg, s, a) && Alone(s) && a.ATake?
    ensures TopAlone(next)
  {
    assert a.t == 0;
    hide CallersOk, OwnPools, At, Grab, WorksFor;
    TakeAlone(cfg, s, a.taken, Top(s, 0).code.priority);
  }

  lemma TakeAlone(cfg: Config, s: State, taken: multiset<Job>, p: Priority)
    requires cfg.workers == 0 && cfg.cacheSize > 0 && |s.stack| == 1 && s.stack[0] != []
    requires Top(s, 0).code == Fill(Global, p) && Knows(s, Top(s, 0)) && WorksFor(s, s.stack[0])
    requires taken <= At(s, Local(0, p)) && |Top(s, 0).held| <= cfg.cacheSize
    requires |taken| == Min(cfg.cacheSize - |Top(s, 0).held|, |At(s, Local(0, p))|)
    ensures var next := Grab(s, 0, Local(0, p), taken, AfterFill(Global, p));
            TopAlone(next)
  {
    var next := Grab(s, 0, Local(0, p), taken, AfterFill(Global, p));
    if Top(s, 0).held + taken == multiset{} {
      assert Top(s, 0).held == multiset{} && taken == multiset{};
      assert At(s, Local(0, p)) == multiset{};
      forall q: Priority | q == p || NoneQueued(s, q) ensures NoneQueued(next, q) {
        PoolElsewhere(s, next, Local(0, p), At(s, Local(0, p)) - taken, Local(0, q));
      }
      hide At, SetPool;
    } else {
      hide At, SetPool;
    }
  }

  /** A fetch that has found nothing at all reports so, and its waiting loop goes to the flag. */
  lemma SettleAlone(cfg: Config, s: State, a: Action, next: State)
    requires cfg.workers == 0 && Enabled(cfg, s, a) && next == Apply(cfg, s, a) && Alone(s) && a.ASettle?
    requires At(s, Cache(0)) == multiset{}
    ensures TopAlone(next)
  {
    assert a.t == 0 && next == Settle(s, 0, a.victim) && Top(s, 0).code.Filled? && a.victim == None;
    hide Apply, Enabled, At, CallersOk, OwnPools, WorksFor;
    TwoFrames(s.stack[0]);
    CallersArePlain(s.stack[0]);
    if Top(s, 0).held != multiset{} {
      PublishAlone(s);
      hide Publish, Knows;
    } else if Top(s, 0).code.source.Global? {
      ReportAlone(s);
      hide ReportEmpty, Knows;
    } else {
      OnToGlobal(s);
    }
  }

  lemma OnToGlobal(s: State)
    requires |s.stack| == 1 && s.stack[0] != [] && WorksFor(s, s.stack[0])
    requires Last(s.stack[0]) == Frame(Filled(Own), multiset{})
    ensures var next := WithCode(s, 0, Fill(Global, High));
            TopAlone(next)
  {
  }

  lemma PublishAlone(s: State)
    requires |s.stack| == 1 && |s.stack[0]| >= 2 && Plain(Last(s.stack[0][..|s.stack[0]| - 1]).code)
    ensures var next := Publish(s, 0);
            TopAlone(next)
  {
    PlainKnows(Publish(s, 0), s.stack[0][..|s.stack[0]| - 1]);
    hide Knows, WorksFor, SetPool;
  }

  lemma ReportAlone(s: State)
    requires Alone(s) && |s.stack[0]| >= 2 && Plain(Last(s.stack[0][..|s.stack[0]| - 1]).code)
    requires Last(s.stack[0]) == Frame(Filled(Global), multiset{}) && At(s, Cache(0)) == multiset{}
    ensures var next := ReportEmpty(s, 0);
            TopAlone(next)
  {
    var next := ReportEmpty(s, 0);
    var below := s.stack[0][..|s.stack[0]| - 1];
    if Last(below).code.Waiting? && Last(below).code.point == Check {
      var f := Last(below).(code := Waiting(Last(below).code.counter, Arm));
      assert Last(next.stack[0]) == f;
      KnowsAgain(s, next, f);
      hide CallersOk, OwnPools, At;
    } else {
      PlainKnows(next, below);
      hide Knows, WorksFor;
    }
  }

  lemma PoolOfAlone(cfg: Config, s: State, a: Action)
    requires cfg.workers == 0 && Enabled(cfg, s, a) && a.t == 0 && Knows(s, Top(s, 0))
    ensures var p := PoolOf(cfg, s, a);
            p == Done || p == Cache(0) || (p.Local? && p.context == 0)
  {
    hide At, NoneQueued;
  }

  lemma OwnPoolsKept(s: State, next: State, p: Place, m: multiset<Job>)
    requires OwnPools(s) && next.pools == SetPool(s.pools, p, m)
    requires p == Done || p == Cache(0) || (p.Local? && p.context == 0)
    ensures OwnPools(next)
  {
  }

  lemma PoolsAlone(cfg: Config, s: State, a: Action, next: State)
    requires cfg.workers == 0 && Enabled(cfg, s, a) && next == Apply(cfg, s, a) && Alone(s)
    ensures OwnPools(next)
  {
    PoolsChangeOnce(cfg, s, a);
    assert Alive(s, a.t);
    hide Apply, Enabled, Knows, WorksFor, CallersOk, PoolOf, SetPool;
    assert a.t == 0;
    PoolOfAlone(cfg, s, a);
    if next.pools != s.pools {
      hide OwnPools;
      var m :| next.pools == SetPool(s.pools, PoolOf(cfg, s, a), m);
      OwnPoolsKept(s, next, PoolOf(cfg, s, a), m);
    }
  }

  lemma StepAlone(cfg: Config, s: State, a: Action, next: State)
    requires cfg.workers == 0 && cfg.cacheSize > 0 && Tidy(cfg, s)
    requires Enabled(cfg, s, a) && Thorough(cfg, s, a) && next == Apply(cfg, s, a) && Alone(s) && Routine(next, 0)
    ensures Alone(next)
  {
    PoolsAlone(cfg, s, a, next);
    if a.ASettle? {
      FetchFacts(cfg, s, 0, |s.stack[0]| - 1);
      SettleAlone(cfg, s, a, next);
    }
    hide Apply, Enabled, Thorough, CallersOk, OwnPools, Knows, WorksFor, Tidy;
    if CallStep(a) {
      CallStepAlone(cfg, s, a, next);
    } else if a.ARunCached? {
      RunAlone(cfg, s, a, next);
    } else if a.ATake? {
      FetchAlone(cfg, s, a, next);
    } else if a.AStartFill? || a.AMigrateTake? || a.AMigratePut? {
      StartAlone(cfg, s, a, next);
    } else if !a.ASettle? {
      WaitStepAlone(cfg, s, a, next);
    }
  }

  lemma OnlyThread(cfg: Config, schedule: seq<Action>)
    requires cfg.workers == 0 && Execute(cfg, schedule).Some?
    ensures Routine(Execute(cfg, schedule).value, 0)
  {
    forall i | 0 <= i < |schedule| && schedule[i].AWait? ensures schedule[i].t == 0 {
      ActorExists(cfg, schedule, i);
    }
    ReachedWillWake(cfg, schedule, 0);
    hide Execute, Routine;
  }

  lemma ThoroughLast(cfg: Config, schedule: seq<Action>)
    requires schedule != [] && ThoroughRun(cfg, schedule) && Execute(cfg, schedule).Some?
    ensures var before, a := schedule[..|schedule| - 1], schedule[|schedule| - 1];
            && Execute(cfg, before).Some? && ThoroughRun(cfg, before)
            && Thorough(cfg, Execute(cfg, before).value, a) && Enabled(cfg, Execute(cfg, before).value, a)
            && Execute(cfg, schedule).value == Apply(cfg, Execute(cfg, before).value, a)
  {
    hide Thorough, Enabled, Apply;
  }

  lemma {:induction false} ReachedAlone(cfg: Config, schedule: seq<Action>)
    requires cfg.workers == 0 && cfg.cacheSize > 0 && Execute(cfg, schedule).Some? && ThoroughRun(cfg, schedule)
    ensures Alone(Execute(cfg, schedule).value)
    decreases |schedule|
  {
    OnlyThread(cfg, schedule);
    if schedule == [] {
      AloneInitially(cfg);
    } else {
      ThoroughLast(cfg, schedule);
      hide *;
      var before := schedule[..|schedule| - 1];
      ReachedAlone(cfg, before);
      ReachedIsTidy(cfg, before);
      StepAlone(cfg, Execute(cfg, before).value, schedule[|schedule| - 1], Execute(cfg, schedule).value);
    }
  }

  /** There is no job in any place but the hands and the finished set. */
  lemma NotQueued(s: State, p: Place)
    requires AllFetched(s) && At(s, Cache(0)) == multiset{} && OwnPools(s) && !p.Hand? && p != Done
    ensures At(s, p) == multiset{}
  {
    forall q: Priority ensures NoneQueued(s, q) {
      match q
      case High =>
      case Normal =>
      case Low =>
    }
    if p.Local? && p.context == 0 {
      assert NoneQueued(s, p.priority);
    }
  }

  lemma HeldByBody(cfg: Config, s: State, d: nat, j: Job)
    requires Good(cfg, s) && |s.stack| == 1 && CallersOk(s.stack[0]) && d < |s.stack[0]| && j in s.stack[0][d].held
    requires Last(s.stack[0]).code.Waiting?
    ensures d < |s.stack[0]| - 1 && s.stack[0][d] == Frame(Body, multiset{j})
  {
    var f := s.stack[0][d];
    assert FrameOk(f, d);
    assert d < |s.stack[0]| - 1 ==> CallerOk(f.code);
    hide Good, CallersOk;
    assert f.code.Body? && |f.held| == 1;
    assert f.held == multiset{j} + (f.held - multiset{j});
    assert |f.held - multiset{j}| == 0;
  }

  lemma OpenIsBeneath(cfg: Config, s: State, j: Job, c: Counter)
    requires Good(cfg, s) && Alone(s) && j in Open(s.jobs, c)
    requires Last(s.stack[0]).code.Waiting? && Last(s.stack[0]).code.counter == c
    requires Last(s.stack[0]).code.point != Check
    ensures AboveJob(s, 0, j, c)
  {
    assert Somewhere(s, j);
    var p :| j in At(s, p);
    assert TagOk(s, p, j);
    assert AllFetched(s) && At(s, Cache(0)) == multiset{};
    if !p.Hand? {
      assert p != Done;
      NotQueued(s, p);
    }
    hide Good, CallersOk, OwnPools, Knows, WorksFor;
    assert p.thread == 0 && p.depth < |s.stack[0]| && j in s.stack[0][p.depth].held;
    HeldByBody(cfg, s, p.depth, j);
    assert Beneath(s, 0, p.depth, |s.stack[0]| - 1, j, c);
  }

  lemma BlockedFacts(cfg: Config, s: State, c: Counter)
    requires Good(cfg, s) && Alone(s) && CountIs(s, c)
    requires Last(s.stack[0]).code.Waiting? && Last(s.stack[0]).code.counter == c
    requires Last(s.stack[0]).code.point != Check
    ensures Count(s, c) > 0 && Open(s.jobs, c) != {}
    ensures forall j :: j in Open(s.jobs, c) ==> AboveJob(s, 0, j, c)
  {
    assert Count(s, c) > 0;
    hide Good, Open, AboveJob, Alone, Count;
    forall j | j in Open(s.jobs, c) ensures AboveJob(s, 0, j, c) {
      OpenIsBeneath(cfg, s, j, c);
    }
  }

  /**
   * Without workers a wait, from whatever depth of jobs it was called, goes to the flag only
   * with all open jobs of its counter beneath it, where they can never finish.
   */
  lemma BlocksOnlyAboveOwnJobs(cfg: Config, schedule: seq<Action>, c: Counter)
    requires cfg.workers == 0 && cfg.cacheSize > 0 && Execute(cfg, schedule).Some? && ThoroughRun(cfg, schedule)
    requires var s := Execute(cfg, schedule).value;
             Alive(s, 0) && Top(s, 0).code.Waiting? && Top(s, 0).code.counter == c && Top(s, 0).code.point != Check
    ensures var s := Execute(cfg, schedule).value;
            && Count(s, c) > 0 && Open(s.jobs, c) != {}
            && forall j :: j in Open(s.jobs, c) ==> AboveJob(s, 0, j, c)
  {
    ReachedAlone(cfg, schedule);
    ReachedIsGood(cfg, schedule);
    BalancedAt(cfg, schedule, c);
    hide Execute, ThoroughRun, Good, CountIs, Open, AboveJob, Alone;
    BlockedFacts(cfg, Execute(cfg, schedule).value, c);
  }

  /** So a wait above no job of its counter, such as one called from outside any job, never goes to the flag. */
  lemma OtherwiseNeverBlocks(cfg: Config, schedule: seq<Action>, c: Counter)
    requires cfg.workers == 0 && cfg.cacheSize > 0 && Execute(cfg, schedule).Some? && ThoroughRun(cfg, schedule)
    requires var s := Execute(cfg, schedule).value;
             && Alive(s, 0) && Top(s, 0).code.Waiting? && Top(s, 0).code.counter == c
             && forall j :: !AboveJob(s, 0, j, c)
    ensures Top(Execute(cfg, schedule).value, 0).code.point == Check
  {
    hide Execute, ThoroughRun, AboveJob, Open, Count;
    if Top(Execute(cfg, schedule).value, 0).code.point != Check {
      BlocksOnlyAboveOwnJobs(cfg, schedule, c);
    }
  }
}

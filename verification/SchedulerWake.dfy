/**
 * The shared wake flag: with a single waiting thread no wake-up is lost.
 */
module SchedulerWake {
  import opened Wrappers
  import opened JobTypes
  import opened Scheduler

  /** Only thread `w` calls wait_for_counter. */
  predicate SoleWaiter(schedule: seq<Action>, w: Thread) {
    forall i :: 0 <= i < |schedule| && schedule[i].AWait? ==> schedule[i].t == w
  }

  /** Thread `u` has lowered counter `c` for a finished job and has yet to clear the flag. */
  predicate Clearing(s: State, u: Thread, c: Counter) {
    Alive(s, u) && Top(s, u).code == ClearWake(Some(c))
  }

  /** Thread `u` has lowered counter `c` for a finished job and has yet to clear the flag or to notify. */
  predicate Signalling(s: State, u: Thread, c: Counter) {
    Clearing(s, u, c) || (Alive(s, u) && Top(s, u).code == NotifyWake(Some(c)))
  }

  predicate CallerOk(code: Code) {
    code.Outside? || code.Body? || (code.Waiting? && code.point == Check)
  }

  /** Frames below the top are callers: application code, a job, or a waiting loop about to look again. */
  ghost predicate CallersOk(fs: seq<Frame>) {
    fs != [] && fs[0].code.Outside? && forall d :: 0 <= d < |fs| - 1 ==> CallerOk(fs[d].code)
  }

  ghost predicate NeverWaits(fs: seq<Frame>) {
    forall d :: 0 <= d < |fs| ==> !fs[d].code.Waiting?
  }

  /** What thread `t`'s stack looks like when `w` is the only thread that waits. */
  ghost predicate RoutineIn(t: Thread, fs: seq<Frame>, w: Thread) {
    CallersOk(fs) && (t != w ==> NeverWaits(fs))
  }

  ghost predicate Routine(s: State, w: Thread) {
    && (forall t :: 0 <= t < |s.stack| ==> RoutineIn(t, s.stack[t], w))
    && CountersBound(s.jobs)
  }

  /** If `w` is past its last look at the counter and the counter is zero, a signal is on its way. */
  ghost predicate WillWake(s: State, w: Thread) {
    Alive(s, w) && Top(s, w).code.Waiting? && Count(s, Top(s, w).code.counter) <= 0 ==>
      var c, point := Top(s, w).code.counter, Top(s, w).code.point;
      && (point == Asleep ==> exists u :: Signalling(s, u, c))
      && ((point == Asleep || point == Enter) && s.wake ==> exists u :: Clearing(s, u, c))
  }

  // ---------------------------------------------------------------- what a step does to the stacks

  /** Steps of application code, jobs and signals, and the first look of a waiting loop. */
  predicate CallStep(a: Action) {
    a.ADispatch? || a.ARaise? || a.ASubmit? || a.ASuspend? || a.AFinalize? || a.AAwaitChild?
    || a.AClearWake? || a.ANotifyWake? || a.AIterate? || a.AWait? || a.ACheck?
  }

  /** Apart from the notification, a step changes only the stack of its own thread. */
  ghost predicate OthersUntouched(s: State, next: State, a: Action) {
    && |next.stack| == |s.stack|
    && forall u :: 0 <= u < |s.stack| && u != a.t ==>
         next.stack[u] == if a.ANotifyWake? then Woken(s.stack[u]) else s.stack[u]
  }

  /** The steps of dispatching, suspending and finishing. */
  predicate JobStep(a: Action) {
    a.ADispatch? || a.ARaise? || a.ASubmit? || a.ASuspend? || a.AFinalize? || a.AAwaitChild?
  }

  lemma FinalizeRoutine(s: State, t: Thread, j: Job, w: Thread)
    requires Alive(s, t) && j in s.jobs && RoutineIn(t, s.stack[t], w) && Top(s, t).code.Body?
    ensures t < |Finalize(s, t, j).stack| && RoutineIn(t, Finalize(s, t, j).stack[t], w)
  {
    hide At, SetPool, Lowered;
  }

  lemma SubmitRoutine(s: State, t: Thread, w: Thread)
    requires Alive(s, t) && RoutineIn(t, s.stack[t], w) && Top(s, t).code.Submit?
    ensures t < |DoSubmit(s, t).stack| && RoutineIn(t, DoSubmit(s, t).stack[t], w)
  {
    hide At, SetPool;
  }

  lemma JobStepRoutine(cfg: Config, s: State, a: Action, next: State, w: Thread)
    requires Enabled(cfg, s, a) && next == Apply(cfg, s, a) && RoutineIn(a.t, s.stack[a.t], w)
    requires JobStep(a)
    ensures a.t < |next.stack| && RoutineIn(a.t, next.stack[a.t], w)
  {
    hide At, SetPool, Enlist, SetPhase, Count, Finalize, DoSubmit;
    if a.AFinalize? {
      hide RoutineIn;
      FinalizeRoutine(s, a.t, a.job, w);
    } else if a.ASubmit? {
      hide RoutineIn;
      SubmitRoutine(s, a.t, w);
    }
  }

  lemma CallStepRoutine(cfg: Config, s: State, a: Action, next: State, w: Thread)
    requires Enabled(cfg, s, a) && next == Apply(cfg, s, a) && RoutineIn(a.t, s.stack[a.t], w)
    requires (a.AWait? ==> a.t == w) && CallStep(a) && !JobStep(a)
    ensures a.t < |next.stack| && RoutineIn(a.t, next.stack[a.t], w)
  {
    hide At, SetPool, Enlist, SetPhase;
  }

  lemma OtherStepRoutine(cfg: Config, s: State, a: Action, next: State, w: Thread)
    requires Enabled(cfg, s, a) && next == Apply(cfg, s, a) && RoutineIn(a.t, s.stack[a.t], w)
    requires !CallStep(a) && !a.ASettle?
    ensures a.t < |next.stack| && RoutineIn(a.t, next.stack[a.t], w)
  {
    hide At, SetPool;
  }

  /** Settling replaces the top frame, or returns to the caller below it, who may go on to arm the flag. */
  ghost predicate SettledStack(fs: seq<Frame>, gs: seq<Frame>)
    requires fs != []
  {
    var below := fs[..|fs| - 1];
    || (exists f: Frame :: gs == below + [f] && !f.code.Outside? && !f.code.Waiting?)
    || gs == below
    || (below != [] && Last(below).code.Waiting?
        && gs == below[|below| - 1 := Last(below).(code := Waiting(Last(below).code.counter, Arm))])
  }

  lemma SettleStack(s: State, t: Thread, victim: Option<nat>)
    requires Alive(s, t) && Top(s, t).code.Filled?
    ensures |Settle(s, t, victim).stack| == |s.stack|
    ensures SettledStack(s.stack[t], Settle(s, t, victim).stack[t])
  {
    hide At, SetPool;
    var top := Top(s, t);
    if top.held != multiset{} {
      assert Settle(s, t, victim).stack[t] == s.stack[t][..|s.stack[t]| - 1];
    } else if top.code.source.Global? {
      ReportEmptyStack(s, t);
      hide ReportEmpty, SettledStack;
    } else {
      var f := Last(Settle(s, t, victim).stack[t]);
      assert Settle(s, t, victim).stack[t] == s.stack[t][..|s.stack[t]| - 1] + [f];
      hide ReportEmpty;
    }
  }

  lemma ReportEmptyStack(s: State, t: Thread)
    requires Alive(s, t)
    ensures |ReportEmpty(s, t).stack| == |s.stack|
    ensures SettledStack(s.stack[t], ReportEmpty(s, t).stack[t])
  {
  }

  lemma SettledIsRoutine(t: Thread, fs: seq<Frame>, gs: seq<Frame>, w: Thread)
    requires fs != [] && RoutineIn(t, fs, w) && !Last(fs).code.Outside? && SettledStack(fs, gs)
    ensures gs != [] && RoutineIn(t, gs, w)
    ensures Last(gs).code.Waiting? ==> Last(gs).code.point == Check || Last(gs).code.point == Arm
  {
  }

  lemma SettleStepRoutine(cfg: Config, s: State, a: Action, next: State, w: Thread)
    requires Enabled(cfg, s, a) && next == Apply(cfg, s, a) && RoutineIn(a.t, s.stack[a.t], w)
    requires a.ASettle?
    ensures Alive(next, a.t) && RoutineIn(a.t, next.stack[a.t], w)
    ensures Top(next, a.t).code.Waiting? ==>
              Top(next, a.t).code.point == Check || Top(next, a.t).code.point == Arm
  {
    hide Settle, SettledStack, At, RoutineIn;
    SettleStack(s, a.t, a.victim);
    SettledIsRoutine(a.t, s.stack[a.t], next.stack[a.t], w);
  }

  lemma JobStepTouchesOneStack(cfg: Config, s: State, a: Action, next: State)
    requires Enabled(cfg, s, a) && next == Apply(cfg, s, a) && JobStep(a)
    ensures OthersUntouched(s, next, a)
  {
    hide At, SetPool, Enlist, SetPhase;
  }

  lemma CallStepTouchesOneStack(cfg: Config, s: State, a: Action, next: State)
    requires Enabled(cfg, s, a) && next == Apply(cfg, s, a) && CallStep(a) && !JobStep(a)
    ensures OthersUntouched(s, next, a)
  {
    hide At, SetPool, Enlist, SetPhase;
  }

  lemma SettleTouchesOneStack(s: State, t: Thread, victim: Option<nat>)
    requires Alive(s, t) && Top(s, t).code.Filled?
    ensures OthersUntouched(s, Settle(s, t, victim), ASettle(t, victim))
  {
    hide At, SetPool;
  }

  lemma OtherStepTouchesOneStack(cfg: Config, s: State, a: Action, next: State)
    requires Enabled(cfg, s, a) && next == Apply(cfg, s, a) && !CallStep(a)
    ensures OthersUntouched(s, next, a)
  {
    hide At, SetPool, Settle;
    if a.ASettle? {
      SettleTouchesOneStack(s, a.t, a.victim);
    }
  }

  lemma StepTouchesOneStack(cfg: Config, s: State, a: Action, next: State)
    requires Enabled(cfg, s, a) && next == Apply(cfg, s, a)
    ensures OthersUntouched(s, next, a)
  {
    hide Enabled, Apply, OthersUntouched;
    if JobStep(a) { JobStepTouchesOneStack(cfg, s, a, next); }
    else if CallStep(a) { CallStepTouchesOneStack(cfg, s, a, next); }
    else { OtherStepTouchesOneStack(cfg, s, a, next); }
  }

  lemma WokenIsRoutine(t: Thread, fs: seq<Frame>, w: Thread)
    requires RoutineIn(t, fs, w)
    ensures RoutineIn(t, Woken(fs), w)
  {
  }

  /** Every job with a counter has been dispatched. */
  ghost predicate CountersBound(jobs: map<Job, Promise>) {
    forall j :: j in jobs && jobs[j].counter.Some? ==> jobs[j].bound
  }

  lemma JobStepKeepsBound(cfg: Config, s: State, a: Action, next: State)
    requires Enabled(cfg, s, a) && next == Apply(cfg, s, a) && CountersBound(s.jobs) && JobStep(a)
    ensures CountersBound(next.jobs)
  {
    hide At, SetPool;
  }

  lemma StepKeepsBound(cfg: Config, s: State, a: Action, next: State)
    requires Enabled(cfg, s, a) && next == Apply(cfg, s, a) && CountersBound(s.jobs)
    ensures CountersBound(next.jobs)
  {
    hide CountersBound;
    if JobStep(a) {
      hide Enabled, Apply;
      JobStepKeepsBound(cfg, s, a, next);
    } else {
      hide At, SetPool;
      assert next.jobs == s.jobs;
    }
  }

  lemma StepKeepsRoutine(cfg: Config, s: State, a: Action, next: State, w: Thread)
    requires Enabled(cfg, s, a) && next == Apply(cfg, s, a) && Routine(s, w)
    requires a.AWait? ==> a.t == w
    ensures Routine(next, w)
  {
    StepTouchesOneStack(cfg, s, a, next);
    StepKeepsBound(cfg, s, a, next);
    OwnStackStaysRoutine(cfg, s, a, next, w);
    hide Enabled, Apply, RoutineIn;
    forall t | 0 <= t < |next.stack| ensures RoutineIn(t, next.stack[t], w) {
      if t != a.t { WokenIsRoutine(t, s.stack[t], w); }
    }
  }

  lemma OwnStackStaysRoutine(cfg: Config, s: State, a: Action, next: State, w: Thread)
    requires Enabled(cfg, s, a) && next == Apply(cfg, s, a) && RoutineIn(a.t, s.stack[a.t], w)
    requires a.AWait? ==> a.t == w
    ensures a.t < |next.stack| && RoutineIn(a.t, next.stack[a.t], w)
  {
    hide Enabled, Apply, RoutineIn;
    if JobStep(a) { JobStepRoutine(cfg, s, a, next, w); }
    else if CallStep(a) { CallStepRoutine(cfg, s, a, next, w); }
    else if a.ASettle? { SettleStepRoutine(cfg, s, a, next, w); }
    else { OtherStepRoutine(cfg, s, a, next, w); }
  }

  // ---------------------------------------------------------------- signals on their way

  /** A thread that is neither the acting one nor waiting keeps its top frame. */
  lemma TopPersists(s: State, next: State, a: Action, u: Thread)
    requires OthersUntouched(s, next, a) && u != a.t && Alive(s, u)
    ensures Alive(next, u)
    ensures !Top(s, u).code.Waiting? ==> Top(next, u) == Top(s, u)
    ensures !a.ANotifyWake? ==> Top(next, u) == Top(s, u)
    ensures Top(s, u).code.Waiting? ==>
              Top(next, u).code.Waiting? && Top(next, u).code.counter == Top(s, u).code.counter
              && Top(next, u).code.point == (if a.ANotifyWake? && Top(s, u).code.point == Asleep then Enter
                                             else Top(s, u).code.point)
  {
  }

  lemma QuietStepKeepsFlag(cfg: Config, s: State, a: Action, next: State)
    requires Enabled(cfg, s, a) && next == Apply(cfg, s, a)
    ensures a.AClearWake? ==> !next.wake && next.count == s.count
                              && Alive(next, a.t) && Top(next, a.t).code == NotifyWake(Top(s, a.t).code.finished)
    ensures !a.AClearWake? && !a.AArm? && !a.ADisarm? ==> next.wake == s.wake
    ensures !a.ARaise? && !a.AFinalize? ==> next.count == s.count
  {
    hide At, SetPool, Enlist, SetPhase, Settle, DoSubmit, DoRaise, Finalize;
    if a.ASettle? {
      SettleKeepsRest(s, a.t, a.victim);
    } else if a.ASubmit? {
      SubmitKeepsRest(s, a.t);
    } else if a.ARaise? || a.AFinalize? {
      CountingKeepsFlag(s, a);
    }
  }

  lemma CountingKeepsFlag(s: State, a: Action)
    requires Alive(s, a.t) && (a.ARaise? || a.AFinalize?)
    ensures a.ARaise? && Top(s, a.t).code.Raise? ==> DoRaise(s, a.t).wake == s.wake
    ensures a.AFinalize? && a.job in s.jobs ==> Finalize(s, a.t, a.job).wake == s.wake
  {
    hide At, SetPool, SetPhase, Lowered;
  }

  /** Raising counters elsewhere makes no counter drop. */
  lemma RaiseOnlyRaises(cfg: Config, s: State, a: Action, next: State, c: Counter)
    requires Enabled(cfg, s, a) && a.ARaise? && next == Apply(cfg, s, a)
    ensures Count(next, c) >= Count(s, c)
  {
  }

  /** A job finishing elsewhere either leaves `c` alone or goes on to signal for it. */
  lemma FinalizeSignals(cfg: Config, s: State, a: Action, next: State, c: Counter)
    requires Enabled(cfg, s, a) && a.AFinalize? && next == Apply(cfg, s, a)
    requires s.jobs[a.job].counter.Some? ==> s.jobs[a.job].bound
    ensures Count(next, c) == Count(s, c) || Clearing(next, a.t, c)
  {
    hide At, SetPool;
  }

  lemma SignalsPersist(s: State, next: State, a: Action, u: Thread, c: Counter)
    requires OthersUntouched(s, next, a) && u != a.t
    ensures Clearing(s, u, c) ==> Clearing(next, u, c)
    ensures Signalling(s, u, c) ==> Signalling(next, u, c)
  {
    if Alive(s, u) { TopPersists(s, next, a, u); }
  }

  lemma OtherThreadStep(cfg: Config, s: State, a: Action, next: State, w: Thread)
    requires Enabled(cfg, s, a) && next == Apply(cfg, s, a) && Routine(s, w) && WillWake(s, w) && a.t != w
    ensures WillWake(next, w)
  {
    StepTouchesOneStack(cfg, s, a, next);
    QuietStepKeepsFlag(cfg, s, a, next);
    OthersDoNotWait(cfg, s, a, w);
    if Alive(s, w) && Top(s, w).code.Waiting? {
      var c := Top(s, w).code.counter;
      if a.ARaise? { RaiseOnlyRaises(cfg, s, a, next, c); }
      if a.AFinalize? { FinalizeSignals(cfg, s, a, next, c); }
      hide Enabled, Apply, Routine, OthersUntouched, Signalling, Clearing;
      SignalStillComes(s, a, next, w, c);
    } else if Alive(s, w) {
      hide Enabled, Apply, Routine;
      TopPersists(s, next, a, w);
    }
  }

  /** What enabledness says about the acting thread. */
  lemma OthersDoNotWait(cfg: Config, s: State, a: Action, w: Thread)
    requires Enabled(cfg, s, a) && Routine(s, w) && a.t != w
    ensures !a.AArm? && !a.ADisarm?
    ensures Top(s, a.t).code.ClearWake? <==> a.AClearWake?
    ensures Top(s, a.t).code.NotifyWake? <==> a.ANotifyWake?
    ensures a.AFinalize? ==> a.job in s.jobs && (s.jobs[a.job].counter.Some? ==> s.jobs[a.job].bound)
  {
    assert RoutineIn(a.t, s.stack[a.t], w);
    assert !Top(s, a.t).code.Waiting?;
  }

  lemma SignalStillComes(s: State, a: Action, next: State, w: Thread, c: Counter)
    requires Alive(s, w) && Top(s, w).code.Waiting? && Top(s, w).code.counter == c
    requires Alive(s, a.t) && a.t != w && WillWake(s, w) && OthersUntouched(s, next, a)
    requires Top(s, a.t).code.ClearWake? <==> a.AClearWake?
    requires Top(s, a.t).code.NotifyWake? <==> a.ANotifyWake?
    requires a.AClearWake? ==> !next.wake && Alive(next, a.t)
                               && Top(next, a.t).code == NotifyWake(Top(s, a.t).code.finished)
    requires next.wake ==> s.wake
    requires Count(next, c) <= 0 ==> Count(s, c) <= 0 || Clearing(next, a.t, c)
    ensures WillWake(next, w)
  {
    TopPersists(s, next, a, w);
    if Count(next, c) > 0 { return; }
    if Clearing(next, a.t, c) {
      assert Signalling(next, a.t, c);
      return;
    }
    var point := Top(s, w).code.point;
    if point == Asleep && !a.ANotifyWake? {
      var u :| Signalling(s, u, c);
      if u != a.t { SignalsPersist(s, next, a, u, c); }
      assert Signalling(next, u, c);
    }
    if (point == Asleep || point == Enter) && next.wake {
      var u :| Clearing(s, u, c);
      SignalsPersist(s, next, a, u, c);
      assert Clearing(next, u, c);
    }
  }

  // ---------------------------------------------------------------- the waiter's own steps

  /** A frame that has just become the top again is about to look at its counter. */
  lemma OwnStep(cfg: Config, s: State, a: Action, next: State, w: Thread)
    requires Enabled(cfg, s, a) && next == Apply(cfg, s, a) && Routine(s, w) && WillWake(s, w) && a.t == w
    ensures WillWake(next, w)
  {
    if a.AEnterWait? || a.ASpuriousWake? {
      var c := Top(s, w).code.counter;
      hide At, SetPool;
      StepTouchesOneStack(cfg, s, a, next);
      hide Apply;
      if Count(s, c) <= 0 && s.wake {
        var u :| Clearing(s, u, c);
        SignalsPersist(s, next, a, u, c);
        assert Clearing(next, u, c) && Signalling(next, u, c);
      }
    } else if a.ARecheck? {
    } else {
      OwnOtherStep(cfg, s, a, next, w);
    }
  }

  /** A waiting loop whose frame is the top again after some other step is not past its last look. */
  lemma OwnOtherStep(cfg: Config, s: State, a: Action, next: State, w: Thread)
    requires Enabled(cfg, s, a) && next == Apply(cfg, s, a) && a.t == w && RoutineIn(w, s.stack[w], w)
    requires !a.AEnterWait? && !a.ASpuriousWake? && !a.ARecheck?
    ensures Alive(next, w) && Top(next, w).code.Waiting? ==>
              Top(next, w).code.point != Asleep && Top(next, w).code.point != Enter
  {
    if a.ASettle? {
      hide Apply, Enabled;
      SettleStepRoutine(cfg, s, a, next, w);
    } else if CallStep(a) {
      OwnCallStep(cfg, s, a, next, w);
    } else {
      hide At, SetPool;
    }
  }

  lemma OwnCallStep(cfg: Config, s: State, a: Action, next: State, w: Thread)
    requires Enabled(cfg, s, a) && next == Apply(cfg, s, a) && a.t == w && CallersOk(s.stack[w])
    requires CallStep(a)
    ensures Alive(next, w) && Top(next, w).code.Waiting? ==> Top(next, w).code.point == Check
  {
    hide At, SetPool, Enlist, SetPhase;
    if JobStep(a) {
      hide Enabled, Apply, CallersOk;
      OwnJobStep(cfg, s, a, next, w);
    }
  }

  lemma OwnJobStep(cfg: Config, s: State, a: Action, next: State, w: Thread)
    requires Enabled(cfg, s, a) && next == Apply(cfg, s, a) && a.t == w && CallersOk(s.stack[w])
    requires JobStep(a)
    ensures Alive(next, w) && Top(next, w).code.Waiting? ==> Top(next, w).code.point == Check
  {
    hide At, SetPool, Enlist, SetPhase, Lowered;
  }

  // ---------------------------------------------------------------- every run

  lemma {:induction false} ReachedWillWake(cfg: Config, schedule: seq<Action>, w: Thread)
    requires Execute(cfg, schedule).Some? && SoleWaiter(schedule, w)
    ensures Routine(Execute(cfg, schedule).value, w) && WillWake(Execute(cfg, schedule).value, w)
  {
    hide Routine, WillWake, Apply, Enabled;
    if schedule == [] {
      InitialIsRoutine(cfg, w);
    } else {
      var before := schedule[..|schedule| - 1];
      var a := schedule[|schedule| - 1];
      ReachedWillWake(cfg, before, w);
      var s := Execute(cfg, before).value;
      StepKeepsRoutine(cfg, s, a, Apply(cfg, s, a), w);
      if a.t == w {
        OwnStep(cfg, s, a, Apply(cfg, s, a), w);
      } else {
        OtherThreadStep(cfg, s, a, Apply(cfg, s, a), w);
      }
    }
  }

  lemma InitialIsRoutine(cfg: Config, w: Thread)
    ensures Routine(Initial(cfg), w) && WillWake(Initial(cfg), w)
  {
    var s := Initial(cfg);
    forall t | 0 <= t < |s.stack| ensures RoutineIn(t, s.stack[t], w) {
      assert s.stack[t] == [Frame(Outside, multiset{})];
    }
  }

  // ---------------------------------------------------------------- when the flag is set

  /** Thread `w` is in a waiting loop, between setting the flag and its next look at the counter. */
  predicate AtFlagNow(s: State, w: Thread) {
    && Alive(s, w) && Top(s, w).code.Waiting?
    && Top(s, w).code.point != Check && Top(s, w).code.point != Arm
  }

  lemma OthersKeepMark(cfg: Config, s: State, a: Action, next: State, w: Thread)
    requires Enabled(cfg, s, a) && next == Apply(cfg, s, a) && Routine(s, w) && a.t != w
    requires s.wake ==> AtFlagNow(s, w)
    ensures next.wake ==> AtFlagNow(next, w)
  {
    StepTouchesOneStack(cfg, s, a, next);
    QuietStepKeepsFlag(cfg, s, a, next);
    OthersDoNotWait(cfg, s, a, w);
    hide Enabled, Apply, Routine;
    if s.wake { TopPersists(s, next, a, w); }
  }

  lemma OwnKeepsMark(cfg: Config, s: State, a: Action, next: State, w: Thread)
    requires Enabled(cfg, s, a) && next == Apply(cfg, s, a) && a.t == w
    requires s.wake ==> AtFlagNow(s, w)
    ensures next.wake ==> AtFlagNow(next, w)
  {
    QuietStepKeepsFlag(cfg, s, a, next);
    if a.AArm? || s.wake {
      hide At, SetPool;
    }
  }

  /**
   * The flag is set only while the sole waiting thread is between setting it and looking at its
   * counter again; so it is clear before the first wait, and whenever a wait has returned.
   */
  lemma {:induction false} FlagMarksTheWaiter(cfg: Config, schedule: seq<Action>, w: Thread)
    requires Execute(cfg, schedule).Some? && SoleWaiter(schedule, w)
    ensures Execute(cfg, schedule).value.wake ==> AtFlagNow(Execute(cfg, schedule).value, w)
    decreases |schedule|
  {
    if schedule != [] {
      hide Routine, WillWake, Apply, Enabled, AtFlagNow;
      var before, a := schedule[..|schedule| - 1], schedule[|schedule| - 1];
      FlagMarksTheWaiter(cfg, before, w);
      ReachedWillWake(cfg, before, w);
      var s := Execute(cfg, before).value;
      if a.t == w {
        OwnKeepsMark(cfg, s, a, Apply(cfg, s, a), w);
      } else {
        OthersKeepMark(cfg, s, a, Apply(cfg, s, a), w);
      }
    }
  }

  /** A run has a fixed number of threads, which are the only ones to act. */
  lemma {:induction false} AllThreads(cfg: Config, schedule: seq<Action>)
    requires Execute(cfg, schedule).Some?
    ensures |Execute(cfg, schedule).value.stack| == cfg.workers + 1
    decreases |schedule|
  {
    if schedule != [] {
      var before, a := schedule[..|schedule| - 1], schedule[|schedule| - 1];
      AllThreads(cfg, before);
      StepTouchesOneStack(cfg, Execute(cfg, before).value, a, Apply(cfg, Execute(cfg, before).value, a));
      hide Apply, Enabled;
    }
  }

  lemma {:induction false} ActorExists(cfg: Config, schedule: seq<Action>, i: nat)
    requires Execute(cfg, schedule).Some? && i < |schedule|
    ensures schedule[i].t <= cfg.workers
    decreases |schedule|
  {
    var before := schedule[..|schedule| - 1];
    if i < |before| {
      ActorExists(cfg, before, i);
    } else {
      AllThreads(cfg, before);
      assert Enabled(cfg, Execute(cfg, before).value, schedule[i]);
      assert Alive(Execute(cfg, before).value, schedule[i].t) by { hide Execute, Apply; }
      hide Enabled, Apply;
    }
  }

  /**
   * With one waiting thread no wake-up is lost: whenever it sleeps on the flag while its
   * counter is zero, a job that has already lowered that counter still has its clear or
   * its notify to perform.
   */
  lemma NoWakeUpIsLost(cfg: Config, schedule: seq<Action>, w: Thread, c: Counter)
    requires Execute(cfg, schedule).Some? && SoleWaiter(schedule, w)
    requires var s := Execute(cfg, schedule).value;
             Alive(s, w) && Top(s, w).code == Waiting(c, Asleep) && Count(s, c) == 0
    ensures var s := Execute(cfg, schedule).value;
            exists u :: u != w && Signalling(s, u, c)
  {
    ReachedWillWake(cfg, schedule, w);
  }
}

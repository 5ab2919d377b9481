/** A thread that has missed its wake-up sleeps for good. */
module SchedulerDeadlock {
  import opened Wrappers
  import opened JobTypes
  import opened Scheduler
  import opened SchedulerMoves
  import opened SchedulerTwoWaiters

  /** The stack is in a call of wait_for_counter, made from the code `below`, at the flag. */
  predicate InWait(fs: seq<Frame>, below: seq<Frame>, c: Counter) {
    fs == below + Waits(c, Enter) || fs == below + Waits(c, Asleep)
  }

  /** The thread has no job and looks for one, if anything. */
  predicate Aimless(fs: seq<Frame>) {
    fs == IDLE ||
    (|fs| == 2 && fs[0] == IDLE[0] && fs[1].held == multiset{}
     && LooksForWork(fs[1].code))
  }

  ghost predicate OthersAimless(s: State, w: Thread, v: Thread) {
    forall u :: 0 <= u < |s.stack| && u != w && u != v ==> Aimless(s.stack[u])
  }

  /** Both threads are in their waits, counter 1 is zero, the flag is set, and there is no job to run. */
  ghost predicate Stuck(cfg: Config, s: State, w: Thread, v: Thread) {
    && w < v <= cfg.workers && |s.stack| == cfg.workers + 1
    && InWait(s.stack[w], Running(2), 1) && InWait(s.stack[v], Base(cfg, v), 2) && OthersAimless(s, w, v)
    && Nowhere(s) && s.wake && Count(s, 1) == 0
  }

  /** The application code outside the pool calls the scheduler. */
  predicate OutsideCall(cfg: Config, a: Action) {
    a.t == cfg.workers && (a.ADispatch? || a.AWait?)
  }

  /** The waiting threads can only wake spuriously, and find the flag set. */
  lemma WaiterStep(cfg: Config, s: State, a: Action, below: seq<Frame>, c: Counter)
    requires Enabled(cfg, s, a) && InWait(s.stack[a.t], below, c) && s.wake
    ensures var next := Apply(cfg, s, a);
            && |next.stack| == |s.stack| && InWait(next.stack[a.t], below, c)
            && (forall u :: 0 <= u < |s.stack| && u != a.t ==> next.stack[u] == s.stack[u])
            && next.wake && next.count == s.count && (Nowhere(s) ==> Nowhere(next))
  {
    assert Last(s.stack[a.t]).code.Waiting?;
    var next := Apply(cfg, s, a);
    var point := if a.AEnterWait? then Asleep else Enter;
    assert s.stack[a.t][|s.stack[a.t]| - 1 := Frame(Waiting(c, point), multiset{})] == below + Waits(c, point);
    hide At, SetPool, Running, Base;
  }

  /** What a step of a thread without a job leaves alone. */
  ghost predicate AimlessMove(s: State, t: Thread, next: State)
    requires t < |s.stack|
  {
    && |next.stack| == |s.stack| && Aimless(next.stack[t])
    && (forall u :: 0 <= u < |s.stack| && u != t ==> next.stack[u] == s.stack[u])
    && Nowhere(next) && next.wake == s.wake && next.count == s.count
  }

  predicate LooksForWork(code: Code) {
    code.Iterate? || code.MigrateTake? || code.MigratePut? || code.Fill? || code.Filled?
  }

  /** Fetching nothing. */
  lemma GrabNothing(s: State, t: Thread, p: Place, taken: multiset<Job>, code: Code)
    requires Alive(s, t) && Aimless(s.stack[t]) && |s.stack[t]| == 2 && Nowhere(s)
    requires !p.Hand? && !p.Done? && taken <= At(s, p) && LooksForWork(code)
    ensures AimlessMove(s, t, Grab(s, t, p, taken, code))
  {
    assert At(s, p) == multiset{};
    assert taken == multiset{};
    assert Top(s, t).held + taken == multiset{} && At(s, p) - taken == multiset{};
  }

  /** Putting nothing away. */
  lemma ReleaseNothing(s: State, t: Thread, p: Place, code: Code)
    requires Alive(s, t) && Aimless(s.stack[t]) && |s.stack[t]| == 2 && Nowhere(s)
    requires !p.Hand? && !p.Done? && LooksForWork(code)
    ensures AimlessMove(s, t, Release(s, t, p, code))
  {
    assert At(s, p) == multiset{};
    assert At(s, p) + Top(s, t).held == multiset{};
  }

  lemma CodeOnly(s: State, t: Thread, code: Code)
    requires Alive(s, t) && Aimless(s.stack[t]) && |s.stack[t]| == 2 && Nowhere(s) && LooksForWork(code)
    ensures AimlessMove(s, t, WithCode(s, t, code))
  {
  }

  lemma SettleNothing(s: State, t: Thread, victim: Option<nat>)
    requires Alive(s, t) && Aimless(s.stack[t]) && |s.stack[t]| == 2 && Nowhere(s) && Top(s, t).code.Filled?
    ensures AimlessMove(s, t, Settle(s, t, victim))
  {
    var source := Top(s, t).code.source;
    if source.Global? {
      ReturnEmpty(s, t);
    } else {
      CodeOnly(s, t, if source.Own? && victim.Some? then Fill(Victim(victim.value), High) else Fill(Global, High));
    }
    assert Top(s, t).held == multiset{};
    hide AimlessMove, ReportEmpty, WithCode, Release;
  }

  lemma ReturnEmpty(s: State, t: Thread)
    requires Alive(s, t) && Aimless(s.stack[t]) && |s.stack[t]| == 2 && Nowhere(s)
    ensures AimlessMove(s, t, ReportEmpty(s, t))
  {
    assert Pop(s, t).stack[t] == IDLE;
    assert ReportEmpty(s, t) == Pop(s, t);
  }

  /** What such a thread can do. */
  lemma AimlessEnabled(cfg: Config, s: State, a: Action)
    requires Enabled(cfg, s, a) && Aimless(s.stack[a.t]) && Nowhere(s) && !OutsideCall(cfg, a)
    ensures a.AIterate? || a.AStartFill? || a.AMigrateTake? || a.AMigratePut? || a.ATake? || a.ASettle?
    ensures if a.AIterate? then s.stack[a.t] == IDLE else |s.stack[a.t]| == 2
  {
  }

  /** The other threads find nothing. */
  lemma AimlessStep(cfg: Config, s: State, a: Action)
    requires Enabled(cfg, s, a) && Aimless(s.stack[a.t]) && Nowhere(s) && !OutsideCall(cfg, a)
    ensures AimlessMove(s, a.t, Apply(cfg, s, a))
  {
    AimlessEnabled(cfg, s, a);
    var top := Top(s, a.t);
    hide Grab, Release, WithCode, Settle, Aimless, At, AimlessMove, Nowhere;
    match a
    case AIterate(t) => StartLooking(s, t);
    case AStartFill(t, migrate) =>
      CodeOnly(s, t, if t >= cfg.workers then Filled(Own) else if migrate then MigrateTake(High) else Fill(Own, High));
    case AMigrateTake(t, taken) =>
      GrabNothing(s, t, Local(t, top.code.priority), taken, MigratePut(top.code.priority));
    case AMigratePut(t) =>
      ReleaseNothing(s, t, Stealable(t, top.code.priority), AfterMigrate(top.code.priority));
    case ATake(t, taken) =>
      GrabNothing(s, t, SourcePlace(cfg, t, top.code.source, top.code.priority), taken,
                  AfterFill(top.code.source, top.code.priority));
    case ASettle(t, victim) => SettleNothing(s, t, victim);
  }

  lemma StartLooking(s: State, t: Thread)
    requires Alive(s, t) && s.stack[t] == IDLE && Nowhere(s)
    ensures AimlessMove(s, t, Push(s, t, Frame(Iterate, multiset{})))
  {
  }

  lemma StepKeepsStuck(cfg: Config, s: State, a: Action, w: Thread, v: Thread)
    requires Stuck(cfg, s, w, v) && Enabled(cfg, s, a) && (v == cfg.workers || !OutsideCall(cfg, a))
    ensures Stuck(cfg, Apply(cfg, s, a), w, v)
  {
    ActorAlive(cfg, s, a);
    hide *;
    var t, next := a.t, Apply(cfg, s, a);
    StuckFacts(cfg, s, w, v, t);
    if t == w {
      WaiterStep(cfg, s, a, Running(2), 1);
    } else if t == v {
      WaiterStep(cfg, s, a, Base(cfg, v), 2);
    } else {
      OthersDoNotCall(cfg, a, v);
      AimlessStep(cfg, s, a);
      MoveFacts(s, t, next);
    }
    StaysStuck(cfg, s, next, w, v, t);
  }

  lemma ActorAlive(cfg: Config, s: State, a: Action)
    requires Enabled(cfg, s, a)
    ensures a.t < |s.stack|
  {
  }

  lemma OthersDoNotCall(cfg: Config, a: Action, v: Thread)
    requires a.t != v && (v == cfg.workers || !OutsideCall(cfg, a))
    ensures !OutsideCall(cfg, a)
  {
  }

  lemma StuckFacts(cfg: Config, s: State, w: Thread, v: Thread, t: Thread)
    requires Stuck(cfg, s, w, v) && t < |s.stack|
    ensures w < v < |s.stack| && Nowhere(s) && s.wake
    ensures InWait(s.stack[w], Running(2), 1) && InWait(s.stack[v], Base(cfg, v), 2)
    ensures t != w && t != v ==> Aimless(s.stack[t])
  {
    hide InWait, Aimless, Nowhere, Base, Running;
  }

  lemma MoveFacts(s: State, t: Thread, next: State)
    requires t < |s.stack| && AimlessMove(s, t, next)
    ensures |next.stack| == |s.stack| && Aimless(next.stack[t])
    ensures forall u :: 0 <= u < |s.stack| && u != t ==> next.stack[u] == s.stack[u]
    ensures Nowhere(next) && next.wake == s.wake && next.count == s.count
  {
    hide Aimless, Nowhere;
  }

  /** A step of thread `t` that leaves it in its wait, or without a job. */
  lemma StaysStuck(cfg: Config, s: State, next: State, w: Thread, v: Thread, t: Thread)
    requires Stuck(cfg, s, w, v) && t < |s.stack| == |next.stack|
    requires forall u :: 0 <= u < |s.stack| && u != t ==> next.stack[u] == s.stack[u]
    requires if t == w then InWait(next.stack[t], Running(2), 1)
             else if t == v then InWait(next.stack[t], Base(cfg, v), 2)
             else Aimless(next.stack[t])
    requires next.wake && next.count == s.count && Nowhere(next)
    ensures Stuck(cfg, next, w, v)
  {
    hide InWait, Aimless, Nowhere, Base, Running;
  }

  lemma AtFlagIsStuck(cfg: Config, s: State, w: Thread, v: Thread)
    requires w < v <= cfg.workers && AtFlag(cfg, s, w, v, Asleep, Asleep)
    ensures Stuck(cfg, s, w, v)
  {
    StacksAt(cfg, w, v, Running(2) + Waits(1, Asleep), Base(cfg, v) + Waits(2, Asleep));
    hide Stacks, Base;
  }

  lemma {:induction false} StuckForever(cfg: Config, schedule: seq<Action>, more: seq<Action>, w: Thread, v: Thread)
    requires Execute(cfg, schedule).Some? && Stuck(cfg, Execute(cfg, schedule).value, w, v)
    requires Execute(cfg, schedule + more).Some?
    requires v == cfg.workers || forall i :: 0 <= i < |more| ==> !OutsideCall(cfg, more[i])
    ensures Stuck(cfg, Execute(cfg, schedule + more).value, w, v)
    decreases |more|
  {
    hide Stuck, Apply, Enabled, OutsideCall, Execute;
    if more == [] {
      assert schedule + more == schedule;
    } else {
      var before, a := more[..|more| - 1], more[|more| - 1];
      LastStep(cfg, schedule, more);
      StuckForever(cfg, schedule, before, w, v);
      StepKeepsStuck(cfg, Execute(cfg, schedule + before).value, a, w, v);
    }
  }

  /** In every continuation, thread `w` is still in the wait that it called from job 2, for a counter that is zero. */
  ghost predicate NeverReturns(cfg: Config, schedule: seq<Action>, w: Thread, quiet: bool) {
    forall more: seq<Action> ::
      Execute(cfg, schedule + more).Some?
      && (quiet ==> forall i :: 0 <= i < |more| ==> !OutsideCall(cfg, more[i])) ==>
        var s := Execute(cfg, schedule + more).value;
        w < |s.stack| && InWait(s.stack[w], Running(2), 1) && Count(s, 1) == 0
  }

  /**
   * Any two threads can come to sleep on the flag for good.  If one of them is the outside thread, as
   * it must be in a pool of one worker, nothing can end it; otherwise only the outside thread can.
   */
  lemma TwoWaitersDeadlock(cfg: Config, w: Thread, v: Thread) returns (schedule: seq<Action>)
    requires w < v <= cfg.workers && cfg.cacheSize > 0
    ensures Execute(cfg, schedule).Some? && Waiters(schedule) <= {w, v} && ThoroughRun(cfg, schedule)
    ensures Stranded(Execute(cfg, schedule).value, w)
    ensures NeverReturns(cfg, schedule, w, v != cfg.workers)
  {
    schedule := TwoWaitersLoseAWakeUp(cfg, w, v);
    AtFlagIsStuck(cfg, Execute(cfg, schedule).value, w, v);
    forall more: seq<Action> |
      Execute(cfg, schedule + more).Some?
      && (v != cfg.workers ==> forall i :: 0 <= i < |more| ==> !OutsideCall(cfg, more[i]))
      ensures Stuck(cfg, Execute(cfg, schedule + more).value, w, v)
    {
      StuckForever(cfg, schedule, more, w, v);
    }
    hide Execute, InWait, OthersAimless, AtFlag, Stranded;
  }
}

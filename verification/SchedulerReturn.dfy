/** The sole waiting thread, once its counter is zero and all signals for it are done, returns from its wait. */
module SchedulerReturn {
  import opened Wrappers
  import opened JobTypes
  import opened Scheduler
  import opened SchedulerWake

  /** How many more steps of its own a waiting loop takes at most before its last look: never more than three. */
  function Rank(point: WaitPoint): nat {
    match point
    case Check => 0
    case Enter => 1
    case Asleep => 1
    case Disarm => 1
    case Recheck => 2
    case Arm => 3
  }

  /** Thread `w` is in a wait for `c`, called from the code `below`. */
  predicate WaitsAbove(s: State, w: Thread, c: Counter, below: seq<Frame>) {
    && Alive(s, w) && s.stack[w][..|s.stack[w]| - 1] == below
    && Top(s, w).code.Waiting? && Top(s, w).code.counter == c
  }

  /** Nothing remains to be signalled for the counter, which is zero. */
  ghost predicate Quiet(s: State, c: Counter) {
    Count(s, c) == 0 && forall u :: 0 <= u < |s.stack| ==> !Signalling(s, u, c)
  }

  /** The step that the code of thread `w` takes next at that point. */
  function OwnNext(w: Thread, point: WaitPoint): Action {
    match point
    case Check => ACheck(w)
    case Enter => AEnterWait(w)
    case Asleep => ASpuriousWake(w)
    case Disarm => ADisarm(w)
    case Recheck => ARecheck(w)
    case Arm => AArm(w)
  }

  // ---------------------------------------------------------------- no new signal

  /** The top frame of the acting thread signals for `c`. */
  predicate SignalsOn(fs: seq<Frame>, c: Counter) {
    fs != [] && (Last(fs).code == ClearWake(Some(c)) || Last(fs).code == NotifyWake(Some(c)))
  }

  lemma CallersDoNotSignal(fs: seq<Frame>, c: Counter)
    requires CallersOk(fs)
    ensures !SignalsOn(fs[..|fs| - 1], c)
  {
  }

  lemma FinalizeSignalsOwn(s: State, t: Thread, j: Job, c: Counter)
    requires Alive(s, t) && CallersOk(s.stack[t]) && j in s.jobs
    ensures |Finalize(s, t, j).stack| == |s.stack|
    ensures SignalsOn(Finalize(s, t, j).stack[t], c) ==> s.jobs[j].counter == Some(c)
  {
    CallersDoNotSignal(s.stack[t], c);
    hide At, SetPool, Lowered, CallersOk;
    assert Finished(s, t, j).stack[t][..|s.stack[t]| - 1] == s.stack[t][..|s.stack[t]| - 1];
  }

  lemma SubmitSignalsNone(s: State, t: Thread, c: Counter)
    requires Alive(s, t) && CallersOk(s.stack[t]) && Top(s, t).code.Submit?
    ensures |DoSubmit(s, t).stack| == |s.stack|
    ensures !SignalsOn(DoSubmit(s, t).stack[t], c)
  {
    CallersDoNotSignal(s.stack[t], c);
    hide At, SetPool, CallersOk;
    var s1 := Release(s, t, Local(t, Top(s, t).code.priority), ClearWake(None));
    assert s1.stack[t][..|s.stack[t]| - 1] == s.stack[t][..|s.stack[t]| - 1];
  }

  lemma JobStepSignals(cfg: Config, s: State, a: Action, next: State, c: Counter)
    requires Enabled(cfg, s, a) && next == Apply(cfg, s, a) && CallersOk(s.stack[a.t]) && JobStep(a)
    ensures a.t < |next.stack|
    ensures SignalsOn(next.stack[a.t], c) ==> a.AFinalize? && s.jobs[a.job].counter == Some(c)
  {
    hide At, SetPool, Enlist, SetPhase, Lowered, Finalize, DoSubmit, CallersOk;
    if a.AFinalize? {
      FinalizeSignalsOwn(s, a.t, a.job, c);
    } else if a.ASubmit? {
      SubmitSignalsNone(s, a.t, c);
    }
  }

  lemma NotifySignalsNone(s: State, t: Thread, c: Counter)
    requires Alive(s, t) && CallersOk(s.stack[t])
    ensures |Notify(s, t).stack| == |s.stack|
    ensures !SignalsOn(Notify(s, t).stack[t], c)
  {
    CallersDoNotSignal(s.stack[t], c);
    hide CallersOk;
  }

  lemma CallStepSignals(cfg: Config, s: State, a: Action, next: State, c: Counter)
    requires Enabled(cfg, s, a) && next == Apply(cfg, s, a) && CallersOk(s.stack[a.t])
    requires CallStep(a) && !JobStep(a)
    ensures a.t < |next.stack|
    ensures SignalsOn(next.stack[a.t], c) ==> SignalsOn(s.stack[a.t], c)
  {
    hide Notify, CallersOk;
    if a.ANotifyWake? {
      NotifySignalsNone(s, a.t, c);
    } else if a.ACheck? {
      CallersDoNotSignal(s.stack[a.t], c);
    }
  }

  lemma SettleSignalsNone(s: State, t: Thread, victim: Option<nat>, c: Counter)
    requires Alive(s, t) && CallersOk(s.stack[t]) && Top(s, t).code.Filled?
    ensures |Settle(s, t, victim).stack| == |s.stack|
    ensures !SignalsOn(Settle(s, t, victim).stack[t], c)
  {
    CallersDoNotSignal(s.stack[t], c);
    hide At, SetPool, CallersOk;
  }

  lemma OtherStepSignals(cfg: Config, s: State, a: Action, next: State, c: Counter)
    requires Enabled(cfg, s, a) && next == Apply(cfg, s, a) && CallersOk(s.stack[a.t]) && !CallStep(a)
    ensures a.t < |next.stack| && !SignalsOn(next.stack[a.t], c)
  {
    hide At, SetPool, Settle, CallersOk;
    if a.ASettle? {
      SettleSignalsNone(s, a.t, a.victim, c);
    }
  }

  lemma NewTop(cfg: Config, s: State, a: Action, next: State, c: Counter)
    requires Enabled(cfg, s, a) && next == Apply(cfg, s, a) && CallersOk(s.stack[a.t])
    ensures Signalling(next, a.t, c) ==>
              Signalling(s, a.t, c) || (a.AFinalize? && s.jobs[a.job].counter == Some(c))
  {
    assert Alive(s, a.t);
    hide Apply, CallersOk;
    if JobStep(a) { JobStepSignals(cfg, s, a, next, c); }
    else if CallStep(a) { CallStepSignals(cfg, s, a, next, c); }
    else { OtherStepSignals(cfg, s, a, next, c); }
    hide Enabled;
  }

  /** A finishing job would take the counter below zero. */
  lemma FinalizeLowers(s: State, t: Thread, j: Job, c: Counter)
    requires Alive(s, t) && j in s.jobs && s.jobs[j].counter == Some(c)
    ensures Count(Finalize(s, t, j), c) == Count(s, c) - 1
  {
    hide At, SetPool;
  }

  lemma StaysQuiet(cfg: Config, s: State, a: Action, next: State, c: Counter, w: Thread)
    requires Enabled(cfg, s, a) && next == Apply(cfg, s, a) && Routine(s, w) && Quiet(s, c) && Count(next, c) == 0
    ensures Quiet(next, c)
  {
    StepTouchesOneStack(cfg, s, a, next);
    assert Alive(s, a.t) && RoutineIn(a.t, s.stack[a.t], w);
    NewTop(cfg, s, a, next, c);
    if a.AFinalize? && s.jobs[a.job].counter == Some(c) {
      FinalizeLowers(s, a.t, a.job, c);
      assert false;
    }
    hide Enabled, Apply, Count;
    forall u | 0 <= u < |next.stack| ensures !Signalling(next, u, c) {
      assert !Signalling(s, u, c);
    }
  }

  // ---------------------------------------------------------------- every step of a quiet run

  /** The waiter is not asleep, and finds the flag clear. */
  lemma QuietIsAwake(s: State, w: Thread, c: Counter, below: seq<Frame>)
    requires WillWake(s, w) && WaitsAbove(s, w, c, below) && Quiet(s, c)
    ensures Top(s, w).code.point != Asleep && (Top(s, w).code.point == Enter ==> !s.wake)
  {
    if Top(s, w).code.point == Enter && s.wake {
      var u :| Clearing(s, u, c);
      assert Signalling(s, u, c);
    }
  }

  lemma CanGoOn(cfg: Config, s: State, w: Thread, c: Counter, below: seq<Frame>)
    requires WaitsAbove(s, w, c, below)
    ensures Enabled(cfg, s, OwnNext(w, Top(s, w).code.point))
  {
  }

  /** A step of the waiter brings it nearer to its last look, or is that look and returns. */
  lemma WaiterGoesOn(cfg: Config, s: State, a: Action, next: State, w: Thread, c: Counter, below: seq<Frame>)
    requires Enabled(cfg, s, a) && next == Apply(cfg, s, a) && a.t == w
    requires WaitsAbove(s, w, c, below) && Quiet(s, c)
    requires Top(s, w).code.point != Asleep && (Top(s, w).code.point == Enter ==> !s.wake)
    ensures if Top(s, w).code.point == Check then w < |next.stack| && next.stack[w] == below
            else WaitsAbove(next, w, c, below) && Rank(Top(next, w).code.point) < Rank(Top(s, w).code.point)
  {
    hide At, SetPool;
  }

  lemma WaiterStays(s: State, a: Action, next: State, w: Thread, c: Counter, below: seq<Frame>)
    requires OthersUntouched(s, next, a) && a.t != w && WaitsAbove(s, w, c, below) && Top(s, w).code.point != Asleep
    ensures WaitsAbove(next, w, c, below) && Top(next, w).code.point == Top(s, w).code.point
  {
  }

  function OwnSteps(more: seq<Action>, w: Thread): nat {
    if more == [] then 0
    else OwnSteps(more[..|more| - 1], w) + if more[|more| - 1].t == w then 1 else 0
  }

  /** The counter stays at zero through the continuation. */
  ghost predicate StaysZero(cfg: Config, schedule: seq<Action>, more: seq<Action>, c: Counter) {
    forall k :: 0 <= k <= |more| ==>
      Execute(cfg, schedule + more[..k]).Some? && Count(Execute(cfg, schedule + more[..k]).value, c) == 0
  }

  /** At some point of the continuation thread `w` was back in the code that called the wait. */
  ghost predicate Returned(cfg: Config, schedule: seq<Action>, more: seq<Action>, w: Thread, below: seq<Frame>) {
    exists k :: 0 <= k <= |more| && Execute(cfg, schedule + more[..k]).Some?
                && w < |Execute(cfg, schedule + more[..k]).value.stack|
                && Execute(cfg, schedule + more[..k]).value.stack[w] == below
  }

  /** What holds as long as the waiter has not returned: it is awake, can go on, and has few steps left. */
  ghost predicate OnItsWay(cfg: Config, s: State, w: Thread, c: Counter, below: seq<Frame>, left: int) {
    && WaitsAbove(s, w, c, below) && Quiet(s, c) && Top(s, w).code.point != Asleep
    && Enabled(cfg, s, OwnNext(w, Top(s, w).code.point)) && Rank(Top(s, w).code.point) <= left
  }

  lemma StepsOn(cfg: Config, s: State, a: Action, next: State, w: Thread, c: Counter, below: seq<Frame>, left: int)
    requires Enabled(cfg, s, a) && next == Apply(cfg, s, a) && Count(next, c) == 0
    requires Routine(s, w) && WillWake(s, w) && WillWake(next, w) && OnItsWay(cfg, s, w, c, below, left)
    ensures (w < |next.stack| && next.stack[w] == below)
            || OnItsWay(cfg, next, w, c, below, if a.t == w then left - 1 else left)
  {
    StaysQuiet(cfg, s, a, next, c, w);
    QuietIsAwake(s, w, c, below);
    if a.t == w {
      WaiterGoesOn(cfg, s, a, next, w, c, below);
    } else {
      StepTouchesOneStack(cfg, s, a, next);
      hide Apply;
      WaiterStays(s, a, next, w, c, below);
    }
    hide Apply, Enabled, Routine, WillWake, Quiet;
    if WaitsAbove(next, w, c, below) {
      QuietIsAwake(next, w, c, below);
      CanGoOn(cfg, next, w, c, below);
    }
  }

  lemma ZeroBefore(cfg: Config, schedule: seq<Action>, more: seq<Action>, c: Counter)
    requires StaysZero(cfg, schedule, more, c)
    ensures Execute(cfg, schedule + more).Some? && Count(Execute(cfg, schedule + more).value, c) == 0
    ensures more != [] ==> StaysZero(cfg, schedule, more[..|more| - 1], c)
  {
    assert more[..|more|] == more;
    hide Execute, Count;
    if more != [] {
      var before := more[..|more| - 1];
      forall k | 0 <= k <= |before|
        ensures Execute(cfg, schedule + before[..k]).Some?
                && Count(Execute(cfg, schedule + before[..k]).value, c) == 0
      {
        assert before[..k] == more[..k];
      }
    }
  }

  lemma SoleBefore(schedule: seq<Action>, more: seq<Action>, w: Thread)
    requires SoleWaiter(schedule + more, w)
    ensures SoleWaiter(schedule, w)
    ensures more != [] ==> SoleWaiter(schedule + more[..|more| - 1], w)
  {
    forall i | 0 <= i < |schedule| && schedule[i].AWait? ensures schedule[i].t == w {
      assert (schedule + more)[i] == schedule[i];
    }
    if more != [] {
      assert schedule + more[..|more| - 1] == (schedule + more)[..|schedule + more| - 1];
    }
  }

  lemma ReturnedBefore(cfg: Config, schedule: seq<Action>, more: seq<Action>, w: Thread, below: seq<Frame>)
    requires more != [] && Returned(cfg, schedule, more[..|more| - 1], w, below)
    ensures Returned(cfg, schedule, more, w, below)
  {
    var before := more[..|more| - 1];
    hide Execute;
    var k :| 0 <= k <= |before| && Execute(cfg, schedule + before[..k]).Some?
             && w < |Execute(cfg, schedule + before[..k]).value.stack|
             && Execute(cfg, schedule + before[..k]).value.stack[w] == below;
    assert before[..k] == more[..k];
  }

  lemma ReturnedAtLast(cfg: Config, schedule: seq<Action>, more: seq<Action>, w: Thread, below: seq<Frame>)
    requires Execute(cfg, schedule + more).Some? && w < |Execute(cfg, schedule + more).value.stack|
    requires Execute(cfg, schedule + more).value.stack[w] == below
    ensures Returned(cfg, schedule, more, w, below)
  {
    hide Execute;
    assert more[..|more|] == more;
  }

  /** At the start the waiter is on its way. */
  lemma SetsOut(cfg: Config, schedule: seq<Action>, w: Thread, c: Counter, below: seq<Frame>, left: nat)
    requires Execute(cfg, schedule).Some? && SoleWaiter(schedule, w)
    requires var s := Execute(cfg, schedule).value;
             WaitsAbove(s, w, c, below) && Quiet(s, c) && Rank(Top(s, w).code.point) <= left
    ensures OnItsWay(cfg, Execute(cfg, schedule).value, w, c, below, left)
  {
    var s := Execute(cfg, schedule).value;
    ReachedWillWake(cfg, schedule, w);
    hide Execute, Enabled, Rank, Quiet, WillWake;
    QuietIsAwake(s, w, c, below);
    CanGoOn(cfg, s, w, c, below);
  }

  lemma LastStepsOn(cfg: Config, schedule: seq<Action>, more: seq<Action>, w: Thread, c: Counter, below: seq<Frame>,
          left: int)
    requires more != [] && Execute(cfg, schedule + more).Some? && SoleWaiter(schedule + more, w)
    requires Count(Execute(cfg, schedule + more).value, c) == 0
    requires Execute(cfg, schedule + more[..|more| - 1]).Some?
    requires OnItsWay(cfg, Execute(cfg, schedule + more[..|more| - 1]).value, w, c, below, left)
    ensures var next := Execute(cfg, schedule + more).value;
            || (w < |next.stack| && next.stack[w] == below)
            || OnItsWay(cfg, next, w, c, below, if more[|more| - 1].t == w then left - 1 else left)
  {
    hide *;
    var before := more[..|more| - 1];
    LastStep(cfg, schedule, more);
    SoleBefore(schedule, more, w);
    ReachedWillWake(cfg, schedule + before, w);
    ReachedWillWake(cfg, schedule + more, w);
    StepsOn(cfg, Execute(cfg, schedule + before).value, more[|more| - 1], Execute(cfg, schedule + more).value, w, c,
            below, left);
  }

  /** Thread `w` has returned, or is on its way with that many steps less. */
  ghost predicate Nearer(cfg: Config, schedule: seq<Action>, more: seq<Action>, w: Thread, c: Counter,
                         below: seq<Frame>, left: nat)
  {
    && Execute(cfg, schedule + more).Some?
    && (|| Returned(cfg, schedule, more, w, below)
        || OnItsWay(cfg, Execute(cfg, schedule + more).value, w, c, below, left - OwnSteps(more, w)))
  }

  lemma OneNearer(cfg: Config, schedule: seq<Action>, more: seq<Action>, w: Thread, c: Counter, below: seq<Frame>,
          left: nat)
    requires more != [] && SoleWaiter(schedule + more, w) && StaysZero(cfg, schedule, more, c)
    requires Nearer(cfg, schedule, more[..|more| - 1], w, c, below, left)
    ensures Nearer(cfg, schedule, more, w, c, below, left)
  {
    ZeroBefore(cfg, schedule, more, c);
    hide Execute, StaysZero, SoleWaiter, Count, Returned, OnItsWay;
    var before := more[..|more| - 1];
    if Returned(cfg, schedule, before, w, below) {
      ReturnedBefore(cfg, schedule, more, w, below);
    } else {
      LastStepsOn(cfg, schedule, more, w, c, below, left - OwnSteps(before, w));
      var next := Execute(cfg, schedule + more).value;
      if w < |next.stack| && next.stack[w] == below {
        ReturnedAtLast(cfg, schedule, more, w, below);
      }
    }
  }

  lemma {:induction false} GetsNearer(cfg: Config, schedule: seq<Action>, more: seq<Action>, w: Thread, c: Counter,
          below: seq<Frame>, left: nat)
    requires Execute(cfg, schedule).Some? && SoleWaiter(schedule + more, w) && StaysZero(cfg, schedule, more, c)
    requires var s := Execute(cfg, schedule).value;
             WaitsAbove(s, w, c, below) && Quiet(s, c) && Rank(Top(s, w).code.point) <= left
    ensures Nearer(cfg, schedule, more, w, c, below, left)
    decreases |more|
  {
    ZeroBefore(cfg, schedule, more, c);
    SoleBefore(schedule, more, w);
    hide *;
    if more == [] {
      SetsOut(cfg, schedule, w, c, below, left);
      NothingYet(cfg, schedule, w, c, below, left);
    } else {
      GetsNearer(cfg, schedule, more[..|more| - 1], w, c, below, left);
      OneNearer(cfg, schedule, more, w, c, below, left);
    }
  }

  lemma NothingYet(cfg: Config, schedule: seq<Action>, w: Thread, c: Counter, below: seq<Frame>, left: nat)
    requires Execute(cfg, schedule).Some? && OnItsWay(cfg, Execute(cfg, schedule).value, w, c, below, left)
    ensures Nearer(cfg, schedule, [], w, c, below, left)
  {
    assert schedule + [] == schedule;
    hide Execute, OnItsWay, Returned;
  }

  /**
   * The sole waiter of a counter that stays at zero, with no signal outstanding, has returned
   * from its wait after at most four steps of its own.  Until then it never sleeps, and can
   * always go on, whatever the other threads do.
   */
  lemma WaiterReturns(cfg: Config, schedule: seq<Action>, more: seq<Action>, w: Thread, c: Counter, below: seq<Frame>)
    requires Execute(cfg, schedule).Some? && SoleWaiter(schedule + more, w) && StaysZero(cfg, schedule, more, c)
    requires WaitsAbove(Execute(cfg, schedule).value, w, c, below) && Quiet(Execute(cfg, schedule).value, c)
    ensures Nearer(cfg, schedule, more, w, c, below, 3)
    ensures OwnSteps(more, w) >= 4 ==> Returned(cfg, schedule, more, w, below)
  {
    GetsNearer(cfg, schedule, more, w, c, below, 3);
    hide Execute, SoleWaiter, StaysZero, WaitsAbove, Quiet, Returned, OwnSteps, Enabled;
  }
}

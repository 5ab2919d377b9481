/** What dispatching, migrating, suspending and finishing leave, from every reachable state. */
module SchedulerOperations {
  import opened Wrappers
  import opened JobTypes
  import opened Scheduler
  import opened SchedulerPlaces
  import opened SchedulerRuns
  import opened SchedulerCache
  import opened SchedulerEffects

  // ---------------------------------------------------------------- dispatching

  /** The steps of one dispatch. */
  function DispatchSteps(t: Thread, batch: set<Job>, p: Priority, c: Option<Counter>): seq<Action> {
    [ADispatch(t, batch, p, c)] + (if c.Some? then [ARaise(t)] else []) + [ASubmit(t)]
  }

  /** The batch is queued where `t` dispatches to, announced with the counter; nothing else has changed. */
  ghost predicate Dispatched(s: State, next: State, t: Thread, batch: set<Job>, p: Priority, c: Option<Counter>) {
    && next.stack == s.stack && next.wake == s.wake
    && At(next, Local(t, p)) == At(s, Local(t, p)) + multiset(batch) && SamePoolsBut(s, next, Local(t, p))
    && (forall d: Counter :: Count(next, d) == Count(s, d) + if c == Some(d) then |batch| else 0)
    && next.jobs.Keys == s.jobs.Keys + batch
    && forall j :: j in next.jobs ==> next.jobs[j] == if j in batch then Promise(c, true, Active) else s.jobs[j]
  }

  lemma SubmitLeaves(cfg: Config, s: State, t: Thread, below: seq<Frame>, p: Priority, held: multiset<Job>)
    requires Stands(s, t, below, Submit(p, false), held)
    ensures Enabled(cfg, s, ASubmit(t))
    ensures var next := Apply(cfg, s, ASubmit(t));
            && next.stack == s.stack[t := below] && next.wake == s.wake && next.jobs == s.jobs && next.count == s.count
            && At(next, Local(t, p)) == At(s, Local(t, p)) + held && SamePoolsBut(s, next, Local(t, p))
  {
    var next := Apply(cfg, s, ASubmit(t));
    assert Top(s, t) == Frame(Submit(p, false), held);
    assert next.stack[t] == below;
    assert next.stack == s.stack[t := below];
    forall q: Place | !q.Hand? ensures At(next, q) == if q == Local(t, p) then At(s, q) + held else At(s, q) {
      PoolElsewhere(s, next, Local(t, p), At(s, Local(t, p)) + held, q);
    }
    hide SetPool;
  }

  lemma BatchSize(batch: set<Job>)
    ensures |multiset(batch)| == |batch|
  {
  }

  /** Raising the counter changes the counter and the phase of the batch. */
  lemma RaiseLeaves(cfg: Config, s: State, t: Thread, below: seq<Frame>, p: Priority, c: Counter, batch: set<Job>)
    requires Stands(s, t, below, Raise(c, p), multiset(batch)) && batch <= s.jobs.Keys
    ensures Enabled(cfg, s, ARaise(t))
    ensures var next := Apply(cfg, s, ARaise(t));
            && Stands(next, t, below, Submit(p, false), multiset(batch)) && next.wake == s.wake
            && next.stack == s.stack[t := below + [Frame(Submit(p, false), multiset(batch))]] && next.pools == s.pools
            && (forall d: Counter :: Count(next, d) == Count(s, d) + if d == c then |batch| else 0)
            && next.jobs.Keys == s.jobs.Keys
            && forall j :: j in next.jobs ==>
                 next.jobs[j] == if j in batch then s.jobs[j].(phase := Active) else s.jobs[j]
  {
    var next := Apply(cfg, s, ARaise(t));
    assert Top(s, t) == Frame(Raise(c, p), multiset(batch));
    BatchSize(batch);
    assert next.stack[t] == below + [Frame(Submit(p, false), multiset(batch))];
  }

  lemma DispatchLeaves(cfg: Config, s: State, t: Thread, batch: set<Job>, p: Priority, c: Option<Counter>)
    requires Alive(s, t) && MayCall(cfg, t, Top(s, t)) && batch !! s.jobs.Keys
    ensures Enabled(cfg, s, ADispatch(t, batch, p, c))
    ensures var next := Apply(cfg, s, ADispatch(t, batch, p, c));
            var code := if c.Some? then Raise(c.value, p) else Submit(p, false);
            && Stands(next, t, s.stack[t], code, multiset(batch)) && next.wake == s.wake && next.pools == s.pools
            && next.count == s.count && next.stack == s.stack[t := s.stack[t] + [Frame(code, multiset(batch))]]
            && next.jobs.Keys == s.jobs.Keys + batch
            && forall j :: j in next.jobs ==>
                 next.jobs[j] == if j in batch then Promise(c, true, if c.Some? then Pending else Active) else s.jobs[j]
  {
  }

  /**
   * A dispatch queues its batch, with its priority, in the local queue of the dispatching thread,
   * and raises just the counter that it was given, if any.
   */
  lemma DispatchQueues(cfg: Config, schedule: seq<Action>, t: Thread, batch: set<Job>, p: Priority, c: Option<Counter>)
    requires Execute(cfg, schedule).Some?
    requires var s := Execute(cfg, schedule).value;
             Alive(s, t) && MayCall(cfg, t, Top(s, t)) && batch !! s.jobs.Keys
    ensures var end := Execute(cfg, schedule + DispatchSteps(t, batch, p, c));
            end.Some? && Dispatched(Execute(cfg, schedule).value, end.value, t, batch, p, c)
  {
    var s := Execute(cfg, schedule).value;
    hide Execute, At, MayCall;
    var next := DispatchRuns(cfg, s, t, batch, p, c);
    RunContinues(cfg, schedule, DispatchSteps(t, batch, p, c));
  }

  /** The batch is announced, and about to be queued. */
  ghost predicate Announced(s: State, middle: State, t: Thread, batch: set<Job>, p: Priority, c: Option<Counter>) {
    && t < |s.stack| && middle.stack == s.stack[t := s.stack[t] + [Frame(Submit(p, false), multiset(batch))]]
    && middle.wake == s.wake && middle.pools == s.pools
    && (forall d: Counter :: Count(middle, d) == Count(s, d) + if c == Some(d) then |batch| else 0)
    && middle.jobs.Keys == s.jobs.Keys + batch
    && forall j :: j in middle.jobs ==> middle.jobs[j] == if j in batch then Promise(c, true, Active) else s.jobs[j]
  }

  lemma DispatchAnnounces(cfg: Config, s: State, t: Thread, batch: set<Job>, p: Priority, c: Option<Counter>)
    returns (steps: seq<Action>, middle: State)
    requires Alive(s, t) && MayCall(cfg, t, Top(s, t)) && batch !! s.jobs.Keys
    ensures steps == [ADispatch(t, batch, p, c)] + if c.Some? then [ARaise(t)] else []
    ensures Run(cfg, s, steps) == Some(middle) && Announced(s, middle, t, batch, p, c)
  {
    DispatchLeaves(cfg, s, t, batch, p, c);
    middle := Apply(cfg, s, ADispatch(t, batch, p, c));
    assert Run(cfg, s, []) == Some(s);
    hide Enabled, Apply, Run, MayCall;
    Then(cfg, s, [], s, ADispatch(t, batch, p, c), middle);
    assert [] + [ADispatch(t, batch, p, c)] == [ADispatch(t, batch, p, c)];
    steps := [ADispatch(t, batch, p, c)];
    if c.Some? {
      var s1 := middle;
      RaiseLeaves(cfg, s1, t, s.stack[t], p, c.value, batch);
      middle := Apply(cfg, s1, ARaise(t));
      Then(cfg, s, steps, s1, ARaise(t), middle);
      steps := steps + [ARaise(t)];
      RaisedIsAnnounced(s, s1, middle, t, batch, p, c);
    } else {
      SameCounts(s, middle);
    }
    hide Count, Stands, At;
  }

  lemma RaisedIsAnnounced(s: State, s1: State, middle: State, t: Thread, batch: set<Job>, p: Priority,
          c: Option<Counter>)
    requires c.Some? && t < |s.stack|
    requires s1.stack == s.stack[t := s.stack[t] + [Frame(Raise(c.value, p), multiset(batch))]]
    requires middle.stack == s1.stack[t := s.stack[t] + [Frame(Submit(p, false), multiset(batch))]]
    requires s1.wake == s.wake == middle.wake && s1.pools == s.pools == middle.pools && s1.count == s.count
    requires s1.jobs.Keys == s.jobs.Keys + batch == middle.jobs.Keys
    requires forall d: Counter :: Count(middle, d) == Count(s1, d) + if d == c.value then |batch| else 0
    requires forall j :: j in s1.jobs ==>
                           s1.jobs[j] == if j in batch then Promise(c, true, Pending) else s.jobs[j]
    requires forall j :: j in middle.jobs ==>
                           middle.jobs[j] == if j in batch then s1.jobs[j].(phase := Active) else s1.jobs[j]
    ensures Announced(s, middle, t, batch, p, c)
  {
    SameCounts(s, s1);
    hide Count;
    assert middle.stack == s.stack[t := s.stack[t] + [Frame(Submit(p, false), multiset(batch))]];
  }

  lemma DispatchRuns(cfg: Config, s: State, t: Thread, batch: set<Job>, p: Priority, c: Option<Counter>)
    returns (next: State)
    requires Alive(s, t) && MayCall(cfg, t, Top(s, t)) && batch !! s.jobs.Keys
    ensures Run(cfg, s, DispatchSteps(t, batch, p, c)) == Some(next) && Dispatched(s, next, t, batch, p, c)
  {
    hide Enabled, Apply, Run, MayCall, At, Count;
    var steps, middle := DispatchAnnounces(cfg, s, t, batch, p, c);
    SubmitLeaves(cfg, middle, t, s.stack[t], p, multiset(batch));
    next := Apply(cfg, middle, ASubmit(t));
    Then(cfg, s, steps, middle, ASubmit(t), next);
    AnnouncedThenQueued(s, middle, next, t, batch, p, c);
  }

  lemma AnnouncedThenQueued(s: State, middle: State, next: State, t: Thread, batch: set<Job>, p: Priority,
          c: Option<Counter>)
    requires Announced(s, middle, t, batch, p, c)
    requires next.stack == middle.stack[t := s.stack[t]] && next.wake == middle.wake && next.jobs == middle.jobs
    requires next.count == middle.count && SamePoolsBut(middle, next, Local(t, p))
    requires At(next, Local(t, p)) == At(middle, Local(t, p)) + multiset(batch)
    ensures Dispatched(s, next, t, batch, p, c)
  {
    SamePoolsAll(s, middle);
    SameCounts(middle, next);
    hide At, Count;
    assert next.stack == s.stack;
  }

  lemma SamePoolsAll(s: State, next: State)
    requires next.pools == s.pools
    ensures SameQueues(s, next)
  {
  }

  // ---------------------------------------------------------------- signals

  /** A thread asleep on the flag goes back to testing it; nothing else changes. */
  predicate WokenOnly(before: seq<Frame>, after: seq<Frame>) {
    if before != [] && before[|before| - 1].code.Waiting? && before[|before| - 1].code.point == Asleep
    then
      var last := before[|before| - 1];
      after == before[..|before| - 1] + [last.(code := Waiting(last.code.counter, Enter))]
    else after == before
  }

  /** Thread `t` has returned to `below`; all others that slept are testing the flag, which is clear. */
  ghost predicate HasSignalled(s: State, next: State, t: Thread, below: seq<Frame>) {
    && !next.wake && |next.stack| == |s.stack| && t < |s.stack|
    && WokenOnly(below, next.stack[t])
    && forall u :: 0 <= u < |s.stack| && u != t ==> WokenOnly(s.stack[u], next.stack[u])
  }

  lemma SignalLeaves(cfg: Config, s: State, t: Thread, below: seq<Frame>, c: Option<Counter>) returns (next: State)
    requires Stands(s, t, below, ClearWake(c), multiset{})
    ensures Run(cfg, s, [AClearWake(t), ANotifyWake(t)]) == Some(next)
    ensures HasSignalled(s, next, t, below) && next.pools == s.pools && next.jobs == s.jobs && next.count == s.count
  {
    var s1 := Apply(cfg, s, AClearWake(t));
    assert Top(s, t) == Frame(ClearWake(c), multiset{});
    assert s1.stack[t] == below + [Frame(NotifyWake(c), multiset{})];
    next := Apply(cfg, s1, ANotifyWake(t));
    assert Pop(s1, t).stack[t] == below;
    assert Run(cfg, s1, [ANotifyWake(t)]) == Run(cfg, next, []);
    assert [AClearWake(t), ANotifyWake(t)][1..] == [ANotifyWake(t)];
    assert Run(cfg, s, [AClearWake(t), ANotifyWake(t)]) == Some(next);
    WokenIs(s1, next, t, below);
  }

  lemma WokenIs(s1: State, next: State, t: Thread, below: seq<Frame>)
    requires t < |s1.stack| && s1.stack[t] != [] && s1.stack[t][..|s1.stack[t]| - 1] == below && next == Notify(s1, t)
    ensures |next.stack| == |s1.stack| && WokenOnly(below, next.stack[t])
    ensures forall u :: 0 <= u < |s1.stack| && u != t ==> WokenOnly(s1.stack[u], next.stack[u])
  {
  }

  // ---------------------------------------------------------------- finishing and suspending

  /**
   * A job that finishes, and was dispatched, is done for good; its counter, if it has one, is one
   * lower, and after that the flag has been cleared and the sleepers woken.
   */
  lemma FinishSignals(cfg: Config, schedule: seq<Action>, t: Thread, below: seq<Frame>, j: Job)
    requires Execute(cfg, schedule).Some?
    requires var s := Execute(cfg, schedule).value;
             Stands(s, t, below, Body, multiset{j}) && j in s.jobs && s.jobs[j].bound
    ensures var s := Execute(cfg, schedule).value;
            var end := Execute(cfg, schedule + [AFinalize(t, j), AClearWake(t), ANotifyWake(t)]);
            && end.Some? && HasSignalled(s, end.value, t, below)
            && At(end.value, Done) == At(s, Done) + multiset{j} && SamePoolsBut(s, end.value, Done)
            && end.value.jobs == s.jobs[j := s.jobs[j].(phase := Finalized)]
            && forall c: Counter :: Count(end.value, c) == Count(s, c) - if s.jobs[j].counter == Some(c) then 1 else 0
  {
    var s := Execute(cfg, schedule).value;
    hide Execute;
    var s1 := FinalizeLeaves(cfg, s, t, below, j);
    hide Enabled, Apply, Run, At, Count;
    var next := SignalLeaves(cfg, s1, t, below, s.jobs[j].counter);
    SamePoolsAll(s1, next);
    RunStep(cfg, s, AFinalize(t, j), [AClearWake(t), ANotifyWake(t)]);
    assert [AFinalize(t, j)] + [AClearWake(t), ANotifyWake(t)] == [AFinalize(t, j), AClearWake(t), ANotifyWake(t)];
    RunContinues(cfg, schedule, [AFinalize(t, j), AClearWake(t), ANotifyWake(t)]);
    SameCounts(s1, next);
  }

  lemma SignalledAfter(s: State, middle: State, next: State, t: Thread, below: seq<Frame>, code: Code)
    requires t < |s.stack| && middle.stack == s.stack[t := below + [Frame(code, multiset{})]]
    requires HasSignalled(middle, next, t, below)
    ensures HasSignalled(s, next, t, below)
  {
    hide WokenOnly;
  }

  lemma NothingElse(s: State, middle: State, next: State, p: Place)
    requires SamePoolsBut(s, middle, p) && SameQueues(middle, next) && !p.Hand?
    ensures SamePoolsBut(s, next, p) && At(next, p) == At(middle, p)
  {
    hide At;
  }

  lemma SameCounts(s: State, next: State)
    requires next.count == s.count
    ensures forall c: Counter :: Count(next, c) == Count(s, c)
  {
  }

  lemma RunStep(cfg: Config, s: State, a: Action, more: seq<Action>)
    requires Enabled(cfg, s, a)
    ensures Run(cfg, s, [a] + more) == Run(cfg, Apply(cfg, s, a), more)
  {
    assert ([a] + more)[1..] == more;
    hide Enabled, Apply;
  }

  lemma FinalizeLeaves(cfg: Config, s: State, t: Thread, below: seq<Frame>, j: Job) returns (next: State)
    requires Stands(s, t, below, Body, multiset{j}) && j in s.jobs && s.jobs[j].bound
    ensures Enabled(cfg, s, AFinalize(t, j)) && next == Apply(cfg, s, AFinalize(t, j))
    ensures next.stack == s.stack[t := below + [Frame(ClearWake(s.jobs[j].counter), multiset{})]]
    ensures At(next, Done) == At(s, Done) + multiset{j} && SamePoolsBut(s, next, Done)
    ensures next.jobs == s.jobs[j := s.jobs[j].(phase := Finalized)]
    ensures forall c: Counter :: Count(next, c) == Count(s, c) - if s.jobs[j].counter == Some(c) then 1 else 0
  {
    next := Apply(cfg, s, AFinalize(t, j));
    assert Top(s, t) == Frame(Body, multiset{j});
    assert next.stack[t] == below + [Frame(ClearWake(s.jobs[j].counter), multiset{})];
    forall q: Place | !q.Hand? ensures At(next, q) == if q == Done then At(s, q) + multiset{j} else At(s, q) {
      PoolElsewhere(s, next, Done, At(s, Done) + multiset{j}, q);
    }
    hide SetPool;
  }

  /** A job that awaits one never dispatched runs it at once, in a call of its own, without counter or scheduler. */
  lemma AwaitRunsChild(cfg: Config, schedule: seq<Action>, t: Thread, below: seq<Frame>, held: multiset<Job>, j: Job)
    requires Execute(cfg, schedule).Some?
    requires var s := Execute(cfg, schedule).value; Stands(s, t, below, Body, held) && j !in s.jobs
    ensures var s := Execute(cfg, schedule).value;
            var end := Execute(cfg, schedule + [AAwaitChild(t, j)]);
            && end.Some?
            && end.value == s.(stack := s.stack[t := below + [Frame(Body, held)] + [Frame(Body, multiset{j})]],
                               jobs := s.jobs[j := Promise(None, false, Active)])
  {
    var s := Execute(cfg, schedule).value;
    assert (schedule + [AAwaitChild(t, j)])[..|schedule|] == schedule;
    hide Execute;
    assert Top(s, t) == Frame(Body, held);
    assert multiset({j}) == multiset{j};
    assert Enlist(s.jobs, {j}, Promise(None, false, Active)) == s.jobs[j := Promise(None, false, Active)];
  }

  /** A job that was only awaited finishes without a signal, and control returns to the one that awaits it. */
  lemma AwaitedJobReturns(cfg: Config, schedule: seq<Action>, t: Thread, below: seq<Frame>, j: Job)
    requires Execute(cfg, schedule).Some?
    requires var s := Execute(cfg, schedule).value;
             Stands(s, t, below, Body, multiset{j}) && j in s.jobs && !s.jobs[j].bound
    ensures var s := Execute(cfg, schedule).value;
            var end := Execute(cfg, schedule + [AFinalize(t, j)]);
            && end.Some? && end.value.stack == s.stack[t := below] && end.value.wake == s.wake
            && At(end.value, Done) == At(s, Done) + multiset{j} && SamePoolsBut(s, end.value, Done)
            && end.value.jobs == s.jobs[j := s.jobs[j].(phase := Finalized)]
  {
    var s := Execute(cfg, schedule).value;
    assert (schedule + [AFinalize(t, j)])[..|schedule|] == schedule;
    hide Execute;
    assert Top(s, t) == Frame(Body, multiset{j});
    var next := Apply(cfg, s, AFinalize(t, j));
    assert next.stack[t] == below;
    assert next.stack == s.stack[t := below];
    forall q: Place | !q.Hand? ensures At(next, q) == if q == Done then At(s, q) + multiset{j} else At(s, q) {
      PoolElsewhere(s, next, Done, At(s, Done) + multiset{j}, q);
    }
    hide SetPool;
  }

  /** A job that suspends is queued again, with normal priority, and keeps its promise; no counter changes. */
  lemma SuspendQueuesAgain(cfg: Config, schedule: seq<Action>, t: Thread, below: seq<Frame>, j: Job)
    requires Execute(cfg, schedule).Some?
    requires var s := Execute(cfg, schedule).value;
             Stands(s, t, below, Body, multiset{j}) && j in s.jobs && s.jobs[j].bound
    ensures var s := Execute(cfg, schedule).value;
            var end := Execute(cfg, schedule + [ASuspend(t), ASubmit(t), AClearWake(t), ANotifyWake(t)]);
            && end.Some? && HasSignalled(s, end.value, t, below)
            && At(end.value, Local(t, Normal)) == At(s, Local(t, Normal)) + multiset{j}
            && SamePoolsBut(s, end.value, Local(t, Normal))
            && end.value.jobs == s.jobs && end.value.count == s.count
  {
    var s := Execute(cfg, schedule).value;
    hide Execute, Run, At, HasSignalled, SamePoolsBut;
    var next := SuspendRuns(cfg, s, t, below, j);
    RunContinues(cfg, schedule, [ASuspend(t), ASubmit(t), AClearWake(t), ANotifyWake(t)]);
  }

  lemma SuspendRuns(cfg: Config, s: State, t: Thread, below: seq<Frame>, j: Job) returns (next: State)
    requires Stands(s, t, below, Body, multiset{j}) && j in s.jobs && s.jobs[j].bound
    ensures Run(cfg, s, [ASuspend(t), ASubmit(t), AClearWake(t), ANotifyWake(t)]) == Some(next)
    ensures HasSignalled(s, next, t, below)
    ensures At(next, Local(t, Normal)) == At(s, Local(t, Normal)) + multiset{j}
    ensures SamePoolsBut(s, next, Local(t, Normal)) && next.jobs == s.jobs && next.count == s.count
  {
    StandsThere(s, t, below, ClearWake(None));
    hide *;
    var s2 := SuspendLeaves(cfg, s, t, below, j);
    next := SignalLeaves(cfg, s2, t, below, None);
    SamePoolsAll(s2, next);
    SignalledAfter(s, s2, next, t, below, ClearWake(None));
    NothingElse(s, s2, next, Local(t, Normal));
    RunBoth(cfg, s, [ASuspend(t), ASubmit(t)], [AClearWake(t), ANotifyWake(t)]);
    assert [ASuspend(t), ASubmit(t)] + [AClearWake(t), ANotifyWake(t)]
        == [ASuspend(t), ASubmit(t), AClearWake(t), ANotifyWake(t)];
  }

  lemma SuspendLeaves(cfg: Config, s: State, t: Thread, below: seq<Frame>, j: Job) returns (next: State)
    requires Stands(s, t, below, Body, multiset{j}) && j in s.jobs && s.jobs[j].bound
    ensures Run(cfg, s, [ASuspend(t), ASubmit(t)]) == Some(next)
    ensures next.stack == s.stack[t := below + [Frame(ClearWake(None), multiset{})]]
    ensures At(next, Local(t, Normal)) == At(s, Local(t, Normal)) + multiset{j}
    ensures SamePoolsBut(s, next, Local(t, Normal)) && next.jobs == s.jobs && next.count == s.count
  {
    assert Top(s, t) == Frame(Body, multiset{j});
    var s1 := Apply(cfg, s, ASuspend(t));
    assert s1.stack[t] == below + [Frame(Submit(Normal, true), multiset{j})];
    assert Top(s1, t) == Frame(Submit(Normal, true), multiset{j});
    next := Apply(cfg, s1, ASubmit(t));
    assert next.stack[t] == below + [Frame(ClearWake(None), multiset{})];
    assert next.stack == s.stack[t := below + [Frame(ClearWake(None), multiset{})]];
    forall q: Place | !q.Hand?
      ensures At(next, q) == if q == Local(t, Normal) then At(s, q) + multiset{j} else At(s, q)
    {
      PoolElsewhere(s, next, Local(t, Normal), At(s, Local(t, Normal)) + multiset{j}, q);
    }
    assert [ASuspend(t), ASubmit(t)][1..] == [ASubmit(t)] && [ASubmit(t)][1..] == [];
    assert Run(cfg, s1, [ASubmit(t)]) == Run(cfg, next, []);
    hide SetPool, At;
  }

  // ---------------------------------------------------------------- waiting

  /** The state with thread `t` at that point of its wait, and the flag as given. */
  function WaitsAt(s: State, t: Thread, below: seq<Frame>, c: Counter, point: WaitPoint, flag: bool): State
    requires t < |s.stack|
  {
    s.(stack := s.stack[t := below + [Frame(Waiting(c, point), multiset{})]], wake := flag)
  }

  lemma WaitStep(cfg: Config, s: State, t: Thread, below: seq<Frame>, c: Counter, point: WaitPoint, flag: bool,
          a: Action, to: WaitPoint, flagAfter: bool)
    requires t < |s.stack| && a.t == t
    requires match a
             case AArm(_) => point == Arm && to == Recheck && flagAfter
             case ARecheck(_) =>
               point == Recheck && flagAfter == flag && to == if Count(s, c) > 0 then Enter else Disarm
             case ADisarm(_) => point == Disarm && to == Check && !flagAfter
             case AEnterWait(_) => point == Enter && flagAfter == flag && to == if flag then Asleep else Check
             case _ => false
    ensures Enabled(cfg, WaitsAt(s, t, below, c, point, flag), a)
    ensures Apply(cfg, WaitsAt(s, t, below, c, point, flag), a) == WaitsAt(s, t, below, c, to, flagAfter)
  {
    var before := WaitsAt(s, t, below, c, point, flag);
    assert Top(before, t) == Frame(Waiting(c, point), multiset{});
    var next := Apply(cfg, before, a);
    assert next.stack[t] == below + [Frame(Waiting(c, to), multiset{})];
    assert next.stack == WaitsAt(s, t, below, c, to, flagAfter).stack;
  }

  /**
   * A waiting loop that has found no job sets the flag and looks at its counter once more: it goes to
   * sleep if the counter is still not zero, and otherwise clears the flag and starts over.
   */
  lemma WaitLooksAgain(cfg: Config, schedule: seq<Action>, t: Thread, below: seq<Frame>, c: Counter)
    requires Execute(cfg, schedule).Some?
    requires Stands(Execute(cfg, schedule).value, t, below, Waiting(c, Arm), multiset{})
    ensures var s := Execute(cfg, schedule).value;
            && (Count(s, c) > 0 ==> Execute(cfg, schedule + [AArm(t), ARecheck(t), AEnterWait(t)])
                                    == Some(WaitsAt(s, t, below, c, Asleep, true)))
            && (Count(s, c) <= 0 ==> Execute(cfg, schedule + [AArm(t), ARecheck(t), ADisarm(t)])
                                     == Some(WaitsAt(s, t, below, c, Check, false)))
  {
    var s := Execute(cfg, schedule).value;
    assert s == WaitsAt(s, t, below, c, Arm, s.wake);
    var positive := Count(s, c) > 0;
    hide *;
    var middle, last := if positive then Enter else Disarm, if positive then AEnterWait(t) else ADisarm(t);
    WaitStep(cfg, s, t, below, c, Arm, s.wake, AArm(t), Recheck, true);
    WaitStep(cfg, s, t, below, c, Recheck, true, ARecheck(t), middle, true);
    WaitStep(cfg, s, t, below, c, middle, true, last, if positive then Asleep else Check, positive);
    ThreeSteps(cfg, s, AArm(t), WaitsAt(s, t, below, c, Recheck, true), ARecheck(t),
               WaitsAt(s, t, below, c, middle, true), last,
               WaitsAt(s, t, below, c, if positive then Asleep else Check, positive));
    RunContinues(cfg, schedule, [AArm(t), ARecheck(t), last]);
  }

  lemma ThreeSteps(cfg: Config, s: State, a: Action, s1: State, b: Action, s2: State, c: Action, s3: State)
    requires Enabled(cfg, s, a) && Apply(cfg, s, a) == s1 && Enabled(cfg, s1, b) && Apply(cfg, s1, b) == s2
    requires Enabled(cfg, s2, c) && Apply(cfg, s2, c) == s3
    ensures Run(cfg, s, [a, b, c]) == Some(s3)
  {
    hide Enabled, Apply;
    assert [a, b, c][1..] == [b, c] && [b, c][1..] == [c] && [c][1..] == [];
    assert Run(cfg, s3, []) == Some(s3);
    assert Run(cfg, s2, [c]) == Some(s3);
    assert Run(cfg, s1, [b, c]) == Some(s3);
  }

  // ---------------------------------------------------------------- migrating

  /** One priority of a migration: at most 32 jobs go from the local to the stealable queue. */
  lemma MigrationMoves(cfg: Config, s: State, t: Thread, below: seq<Frame>, p: Priority, taken: multiset<Job>)
    returns (next: State)
    requires Stands(s, t, below, MigrateTake(p), multiset{}) && taken <= At(s, Local(t, p)) && |taken| <= 32
    ensures Run(cfg, s, [AMigrateTake(t, taken), AMigratePut(t)]) == Some(next)
    ensures next.stack == s.stack[t := below + [Frame(AfterMigrate(p), multiset{})]]
    ensures At(next, Local(t, p)) == At(s, Local(t, p)) - taken
    ensures At(next, Stealable(t, p)) == At(s, Stealable(t, p)) + taken
    ensures forall q: Place :: !q.Hand? && q != Local(t, p) && q != Stealable(t, p) ==> At(next, q) == At(s, q)
  {
    assert Top(s, t) == Frame(MigrateTake(p), multiset{});
    var s1 := Apply(cfg, s, AMigrateTake(t, taken));
    assert multiset{} + taken == taken;
    assert s1.stack[t] == below + [Frame(MigratePut(p), taken)];
    assert Top(s1, t) == Frame(MigratePut(p), taken);
    next := Apply(cfg, s1, AMigratePut(t));
    assert next.stack[t] == below + [Frame(AfterMigrate(p), multiset{})];
    assert next.stack == s.stack[t := below + [Frame(AfterMigrate(p), multiset{})]];
    forall q: Place | !q.Hand?
      ensures At(next, q) == if q == Local(t, p) then At(s, q) - taken
                             else if q == Stealable(t, p) then At(s, q) + taken else At(s, q)
    {
      PoolElsewhere(s, s1, Local(t, p), At(s, Local(t, p)) - taken, q);
      PoolElsewhere(s, s1, Local(t, p), At(s, Local(t, p)) - taken, Stealable(t, p));
      PoolElsewhere(s1, next, Stealable(t, p), At(s1, Stealable(t, p)) + taken, q);
    }
    assert [AMigrateTake(t, taken), AMigratePut(t)][1..] == [AMigratePut(t)] && [AMigratePut(t)][1..] == [];
    assert Run(cfg, s1, [AMigratePut(t)]) == Run(cfg, next, []);
    hide SetPool, At;
  }

  lemma MigrationOrder()
    ensures AfterMigrate(High) == MigrateTake(Normal) && AfterMigrate(Normal) == MigrateTake(Low)
    ensures AfterMigrate(Low) == Fill(Own, High)
  {
  }

  /** A migration of no job, or of one. */
  lemma MigrateOne(cfg: Config, s: State, t: Thread, below: seq<Frame>, p: Priority, wish: Wish)
    returns (steps: seq<Action>, next: State)
    requires Stands(s, t, below, MigrateTake(p), multiset{})
    requires wish.Wish? && wish.p == p ==> wish.j in At(s, Local(t, p))
    ensures Run(cfg, s, steps) == Some(next) && Only(steps, t)
    ensures Stands(next, t, below, AfterMigrate(p), multiset{})
    ensures if wish.Wish? && wish.p == p then wish.j in At(next, Stealable(t, p)) else SameQueues(s, next)
  {
    var taken := Wanted(wish, p);
    WantedFits(s, t, p, wish);
    StandsThere(s, t, below, AfterMigrate(p));
    hide *;
    next := MigrationMoves(cfg, s, t, below, p, taken);
    steps := [AMigrateTake(t, taken), AMigratePut(t)];
    OnlyTwo(t, AMigrateTake(t, taken), AMigratePut(t));
    MovedOrNot(s, next, t, p, wish);
  }

  lemma WantedFits(s: State, t: Thread, p: Priority, wish: Wish)
    requires wish.Wish? && wish.p == p ==> wish.j in At(s, Local(t, p))
    ensures Wanted(wish, p) <= At(s, Local(t, p)) && |Wanted(wish, p)| <= 32
  {
    if wish.Wish? { assert |multiset{wish.j}| == 1; }
    hide At;
  }

  lemma StandsThere(s: State, t: Thread, below: seq<Frame>, code: Code)
    requires t < |s.stack|
    ensures forall next: State :: next.stack == s.stack[t := below + [Frame(code, multiset{})]] ==>
              Stands(next, t, below, code, multiset{})
  {
  }

  lemma OnlyTwo(t: Thread, a: Action, b: Action)
    requires a.t == b.t == t
    ensures Only([a, b], t)
  {
  }

  lemma MovedOrNot(s: State, next: State, t: Thread, p: Priority, wish: Wish)
    requires At(next, Local(t, p)) == At(s, Local(t, p)) - Wanted(wish, p)
    requires At(next, Stealable(t, p)) == At(s, Stealable(t, p)) + Wanted(wish, p)
    requires forall q: Place :: !q.Hand? && q != Local(t, p) && q != Stealable(t, p) ==> At(next, q) == At(s, q)
    ensures if wish.Wish? && wish.p == p then wish.j in At(next, Stealable(t, p)) else SameQueues(s, next)
  {
    hide At;
  }

  lemma NotYet(s: State, next: State, q: Place, j: Job)
    requires SameQueues(s, next) && !q.Hand?
    ensures j in At(s, q) <==> j in At(next, q)
  {
    hide At;
  }

  lemma OnlyAll(t: Thread, first: Action, a: seq<Action>, b: seq<Action>, c: seq<Action>)
    requires first.t == t && Only(a, t) && Only(b, t) && Only(c, t)
    ensures Only([first] + (a + b + c), t)
  {
  }

  /** The three priorities, one after the other. */
  lemma MigrateAll(cfg: Config, s: State, t: Thread, below: seq<Frame>, wish: Wish)
    returns (a: seq<Action>, b: seq<Action>, c: seq<Action>, next: State)
    requires Stands(s, t, below, MigrateTake(High), multiset{}) && wish.Wish? && wish.j in At(s, Local(t, wish.p))
    ensures Run(cfg, s, a + b + c) == Some(next) && Only(a, t) && Only(b, t) && Only(c, t)
    ensures Stands(next, t, below, Fill(Own, High), multiset{}) && wish.j in At(next, Stealable(t, wish.p))
  {
    hide *;
    MigrationOrder();
    var s1, s2;
    a, s1 := MigrateOne(cfg, s, t, below, High, wish);
    if wish.p != High { NotYet(s, s1, Local(t, wish.p), wish.j); }
    b, s2 := MigrateOne(cfg, s1, t, below, Normal, wish);
    if wish.p == High { NotYet(s1, s2, Stealable(t, High), wish.j); }
    if wish.p == Low { NotYet(s1, s2, Local(t, Low), wish.j); }
    c, next := MigrateOne(cfg, s2, t, below, Low, wish);
    if wish.p != Low { NotYet(s2, next, Stealable(t, wish.p), wish.j); }
    RunBoth(cfg, s, a, b);
    RunBoth(cfg, s, a + b, c);
  }

  /** Any local job of a worker can be made stealable by the worker's next migration, whatever its priority. */
  lemma EveryLocalJobCanBecomeStealable(cfg: Config, schedule: seq<Action>, t: Thread, below: seq<Frame>, p: Priority,
          j: Job)
    returns (steps: seq<Action>)
    requires Execute(cfg, schedule).Some? && Ready(Execute(cfg, schedule).value, t, below) && t < cfg.workers
    requires j in At(Execute(cfg, schedule).value, Local(t, p))
    ensures Only(steps, t) && Execute(cfg, schedule + steps).Some?
    ensures var next := Execute(cfg, schedule + steps).value;
            Stands(next, t, below, Fill(Own, High), multiset{}) && j in At(next, Stealable(t, p))
  {
    var s, wish := Execute(cfg, schedule).value, Wish(p, j);
    var s0 := BeginMigration(cfg, s, t, below);
    hide Execute, Run, At, Stands, Enabled, Apply;
    var a, b, c, next := MigrateAll(cfg, s0, t, below, wish);
    RunStep(cfg, s, AStartFill(t, true), a + b + c);
    OnlyAll(t, AStartFill(t, true), a, b, c);
    hide Only;
    steps := [AStartFill(t, true)] + (a + b + c);
    RunContinues(cfg, schedule, steps);
  }

  lemma BeginMigration(cfg: Config, s: State, t: Thread, below: seq<Frame>) returns (next: State)
    requires Ready(s, t, below) && t < cfg.workers
    ensures Enabled(cfg, s, AStartFill(t, true)) && Apply(cfg, s, AStartFill(t, true)) == next
    ensures Stands(next, t, below, MigrateTake(High), multiset{}) && SameQueues(s, next)
  {
    next := Apply(cfg, s, AStartFill(t, true));
    assert Top(s, t) == Frame(Iterate, multiset{});
    assert next.stack[t] == below + [Frame(MigrateTake(High), multiset{})];
  }
}

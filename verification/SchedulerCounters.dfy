/**
 * Fork-join counters: what a counter's value means, over every interleaving.
 */
module SchedulerCounters {
  import opened Wrappers
  import opened JobTypes
  import opened Scheduler
  import opened SchedulerPlaces
  import opened SchedulerSteps
  import opened SchedulerRuns

  /** The jobs announced with counter `c` (the counter has been raised for them) and not finalized. */
  function Open(jobs: map<Job, Promise>, c: Counter): set<Job> {
    set j | j in jobs && jobs[j].counter == Some(c) && jobs[j].phase == Active
  }

  ghost predicate CountIs(s: State, c: Counter) {
    Count(s, c) == |Open(s.jobs, c)|
  }

  ghost predicate Balanced(s: State) {
    forall c :: CountIs(s, c)
  }

  // ---------------------------------------------------------------- the three kinds of change

  lemma {:induction false} SizeOfSimple(m: multiset<Job>, elements: set<Job>)
    requires forall j :: m[j] == if j in elements then 1 else 0
    ensures |m| == |elements|
    decreases elements
  {
    if elements == {} {
      assert m == multiset{};
    } else {
      var j :| j in elements;
      SizeOfSimple(m - multiset{j}, elements - {j});
      assert m == m - multiset{j} + multiset{j};
    }
  }

  /** New promises that are not yet announced open nothing. */
  lemma EnlistOpens(jobs: map<Job, Promise>, batch: set<Job>, promise: Promise, c: Counter)
    requires batch !! jobs.Keys && (promise.phase == Pending || promise.counter == None)
    ensures Open(Enlist(jobs, batch, promise), c) == Open(jobs, c)
  {
    Enlisted(jobs, batch, promise);
    hide Enlist;
  }

  lemma RaisedAreOpen(jobs: map<Job, Promise>, next: map<Job, Promise>, held: multiset<Job>, batch: set<Job>,
          c: Counter)
    requires next.Keys == jobs.Keys && forall j :: j in batch <==> j in held
    requires forall j :: j in jobs ==> next[j] == if j in held then jobs[j].(phase := Active) else jobs[j]
    requires forall j :: j in held ==> j in jobs && jobs[j].phase == Pending && jobs[j].counter == Some(c)
    ensures Open(next, c) == Open(jobs, c) + batch && Open(jobs, c) !! batch
  {
  }

  /** Raising the counter of a pending batch opens just that batch. */
  lemma RaiseOpens(jobs: map<Job, Promise>, held: multiset<Job>, raised: Counter, c: Counter)
    requires forall j :: held[j] <= 1
    requires forall j :: j in held ==> j in jobs && jobs[j].phase == Pending && jobs[j].counter == Some(raised)
    ensures |Open(SetPhase(jobs, held, Active), c)| == |Open(jobs, c)| + if c == raised then |held| else 0
  {
    PhaseSet(jobs, held, Active);
    var next := SetPhase(jobs, held, Active);
    hide SetPhase;
    if c == raised {
      var batch := set j | j in held;
      SizeOfSimple(held, batch);
      RaisedAreOpen(jobs, next, held, batch, c);
      hide Open;
    } else {
      assert Open(next, c) == Open(jobs, c);
    }
  }

  lemma RaiseKeepsBalance(cfg: Config, s: State, t: Thread, c: Counter)
    requires Good(cfg, s) && CountIs(s, c) && Alive(s, t) && Top(s, t).code.Raise?
    ensures CountIs(DoRaise(s, t), c)
  {
    HeldIsPending(cfg, s, t);
    RaiseOpens(s.jobs, Top(s, t).held, Top(s, t).code.counter, c);
    hide SetPhase, Good, Open;
  }

  lemma HeldIsPending(cfg: Config, s: State, t: Thread)
    requires Good(cfg, s) && Alive(s, t) && Top(s, t).code.Raise?
    ensures forall j :: Top(s, t).held[j] <= 1
    ensures forall j :: j in Top(s, t).held ==>
              j in s.jobs && s.jobs[j].phase == Pending && s.jobs[j].counter == Some(Top(s, t).code.counter)
  {
    HeldAtTop(s, t);
    var here := TopPlace(s, t);
    forall j ensures Top(s, t).held[j] <= 1 { assert Single(s, here, here, j); }
    forall j | j in Top(s, t).held
      ensures j in s.jobs && s.jobs[j].phase == Pending && s.jobs[j].counter == Some(Top(s, t).code.counter)
    {
      assert TagOk(s, here, j);
    }
  }

  /** A running job has been announced and is not finalized. */
  lemma RunningIsOpen(cfg: Config, s: State, t: Thread, j: Job)
    requires Good(cfg, s) && Alive(s, t) && Top(s, t).code.Body? && Top(s, t).held == multiset{j}
    ensures j in s.jobs && s.jobs[j].phase == Active
  {
    HeldAtTop(s, t);
    assert TagOk(s, TopPlace(s, t), j);
  }

  lemma FinalizeCloses(jobs: map<Job, Promise>, j: Job, c: Counter)
    requires j in jobs && jobs[j].phase == Active
    ensures var next := jobs[j := jobs[j].(phase := Finalized)];
            |Open(next, c)| == |Open(jobs, c)| - if jobs[j].counter == Some(c) then 1 else 0
  {
    var next := jobs[j := jobs[j].(phase := Finalized)];
    if jobs[j].counter == Some(c) {
      assert j in Open(jobs, c);
      assert Open(next, c) == Open(jobs, c) - {j};
    } else {
      assert Open(next, c) == Open(jobs, c);
    }
  }

  lemma FinalizeChanges(s: State, t: Thread, j: Job)
    requires Alive(s, t) && j in s.jobs
    ensures Finalize(s, t, j).jobs == s.jobs[j := s.jobs[j].(phase := Finalized)]
    ensures Finalize(s, t, j).count == Lowered(s, s.jobs[j].counter)
  {
  }

  lemma FinalizeKeepsBalance(cfg: Config, s: State, t: Thread, j: Job, c: Counter)
    requires Good(cfg, s) && CountIs(s, c) && Alive(s, t)
    requires Top(s, t).code.Body? && Top(s, t).held == multiset{j} && j in s.jobs
    ensures CountIs(Finalize(s, t, j), c)
    ensures s.jobs[j].counter == Some(c) ==> Count(s, c) >= 1
  {
    RunningIsOpen(cfg, s, t, j);
    FinalizeCloses(s.jobs, j, c);
    FinalizeChanges(s, t, j);
    hide Good, Open, Finalize;
  }

  /** Only four kinds of step touch promises or counters. */
  lemma OtherStepsKeepCounts(cfg: Config, s: State, a: Action)
    requires Enabled(cfg, s, a)
    requires !a.ADispatch? && !a.ARaise? && !a.AFinalize? && !a.AAwaitChild?
    ensures Apply(cfg, s, a).jobs == s.jobs && Apply(cfg, s, a).count == s.count
  {
    hide At, Settle, DoSubmit, SetPool;
    if a.ASettle? {
      SettleKeepsRest(s, a.t, a.victim);
    } else if a.ASubmit? {
      SubmitKeepsRest(s, a.t);
    }
  }

  lemma StepKeepsBalance(cfg: Config, s: State, a: Action)
    requires Good(cfg, s) && Balanced(s) && Enabled(cfg, s, a)
    ensures Balanced(Apply(cfg, s, a))
  {
    forall c ensures CountIs(Apply(cfg, s, a), c) {
      assert CountIs(s, c);
      StepKeepsCount(cfg, s, a, c);
    }
  }

  lemma StepKeepsCount(cfg: Config, s: State, a: Action, c: Counter)
    requires Good(cfg, s) && CountIs(s, c) && Enabled(cfg, s, a)
    ensures CountIs(Apply(cfg, s, a), c)
  {
    hide Good, At, DoRaise, Finalize, Enlist;
    match a
    case ADispatch(t, batch, p, counter) =>
      EnlistOpens(s.jobs, batch, Promise(counter, true, if counter.Some? then Pending else Active), c);
    case ARaise(t) => RaiseKeepsBalance(cfg, s, t, c);
    case AFinalize(t, j) => FinalizeKeepsBalance(cfg, s, t, j, c);
    case AAwaitChild(t, j) => EnlistOpens(s.jobs, {j}, Promise(None, false, Active), c);
    case _ => OtherStepsKeepCounts(cfg, s, a);
  }

  lemma {:induction false} ReachedIsBalanced(cfg: Config, schedule: seq<Action>)
    requires Execute(cfg, schedule).Some?
    ensures Balanced(Execute(cfg, schedule).value)
  {
    hide Good;
    if schedule != [] {
      var before := schedule[..|schedule| - 1];
      ReachedIsBalanced(cfg, before);
      ReachedIsGood(cfg, before);
      StepKeepsBalance(cfg, Execute(cfg, before).value, schedule[|schedule| - 1]);
    } else {
      forall c ensures CountIs(Initial(cfg), c) {
        assert Open(Initial(cfg).jobs, c) == {};
      }
    }
  }

  // ---------------------------------------------------------------- what follows for every run

  /** A counter's value is the number of jobs announced with it that have not finalized: never below zero. */
  lemma CounterCountsOpenJobs(cfg: Config, schedule: seq<Action>, c: Counter)
    requires Execute(cfg, schedule).Some?
    ensures var s := Execute(cfg, schedule).value;
            Count(s, c) == |Open(s.jobs, c)| >= 0
  {
    ReachedIsBalanced(cfg, schedule);
    assert CountIs(Execute(cfg, schedule).value, c);
  }

  /** The subtraction a finishing job makes never takes its counter below zero. */
  lemma FinalizeNeverUnderflows(cfg: Config, schedule: seq<Action>, t: Thread, j: Job, c: Counter)
    requires Execute(cfg, schedule).Some?
    requires Enabled(cfg, Execute(cfg, schedule).value, AFinalize(t, j))
    requires Execute(cfg, schedule).value.jobs[j].counter == Some(c)
    ensures Count(Execute(cfg, schedule).value, c) >= 1
  {
    var s := Execute(cfg, schedule).value;
    ReachedIsGood(cfg, schedule);
    ReachedIsBalanced(cfg, schedule);
    assert CountIs(s, c);
    FinalizeKeepsBalance(cfg, s, t, j, c);
  }

  /**
   * When wait_for_counter returns, every job dispatched so far with that counter has
   * finalized; the only others are in a dispatch call that has not yet raised the counter.
   */
  lemma WaitReturnsOnlyWhenDone(cfg: Config, schedule: seq<Action>, t: Thread, j: Job)
    requires Execute(cfg, schedule).Some?
    requires var s := Execute(cfg, schedule).value;
             && Enabled(cfg, s, ACheck(t))
             && |Apply(cfg, s, ACheck(t)).stack[t]| < |s.stack[t]|
             && j in s.jobs && s.jobs[j].counter == Some(Top(s, t).code.counter)
    ensures var s := Execute(cfg, schedule).value;
            j in At(s, Done) || exists u, d :: InRaise(s, Hand(u, d)) && j in At(s, Hand(u, d))
  {
    var s := Execute(cfg, schedule).value;
    var c := Top(s, t).code.counter;
    ReachedIsGood(cfg, schedule);
    ReachedIsBalanced(cfg, schedule);
    assert Count(s, c) <= 0;
    assert CountIs(s, c);
    hide Execute, Enabled, Apply;
    PlaceOfUnopened(cfg, s, j, c);
  }

  lemma PlaceOfUnopened(cfg: Config, s: State, j: Job, c: Counter)
    requires Good(cfg, s) && |Open(s.jobs, c)| <= 0
    requires j in s.jobs && s.jobs[j].counter == Some(c)
    ensures j in At(s, Done) || exists u, d :: InRaise(s, Hand(u, d)) && j in At(s, Hand(u, d))
  {
    assert j !in Open(s.jobs, c);
    assert Somewhere(s, j);
    var p :| j in At(s, p);
    assert TagOk(s, p, j);
    hide At;
    if p != Done {
      assert InRaise(s, Hand(p.thread, p.depth));
    }
  }

  // ---------------------------------------------------------------- promises over a run

  /** What may become of a promise. */
  predicate Keeps(before: Promise, after: Promise) {
    && after.counter == before.counter && after.bound == before.bound
    && (before.phase == Finalized ==> after.phase == Finalized)
    && (before.phase == Active ==> after.phase != Pending)
  }

  lemma RaiseKeepsPromise(cfg: Config, s: State, t: Thread, j: Job)
    requires Good(cfg, s) && Alive(s, t) && Top(s, t).code.Raise? && j in s.jobs
    ensures j in DoRaise(s, t).jobs && Keeps(s.jobs[j], DoRaise(s, t).jobs[j])
  {
    HeldIsPending(cfg, s, t);
    PhaseSet(s.jobs, Top(s, t).held, Active);
    hide Good, At, SetPhase;
  }

  /** A step never takes a job's counter or scheduler away, and never un-finalizes a job. */
  lemma StepKeepsPromise(cfg: Config, s: State, a: Action, j: Job)
    requires Good(cfg, s) && Enabled(cfg, s, a) && j in s.jobs
    ensures j in Apply(cfg, s, a).jobs && Keeps(s.jobs[j], Apply(cfg, s, a).jobs[j])
  {
    hide Good, At;
    if a.ADispatch? {
      Enlisted(s.jobs, a.batch, Promise(a.counter, true, if a.counter.Some? then Pending else Active));
      hide Enlist;
    } else if a.ARaise? {
      RaiseKeepsPromise(cfg, s, a.t, j);
      hide DoRaise;
    } else if a.AAwaitChild? {
      Enlisted(s.jobs, {a.job}, Promise(None, false, Active));
      hide Enlist;
    } else if a.AFinalize? {
      FinalizeChanges(s, a.t, a.job);
      hide Finalize;
    } else {
      OtherStepsKeepCounts(cfg, s, a);
      hide Enabled, Apply;
    }
  }

  lemma StepKeepsDone(cfg: Config, s: State, a: Action, j: Job)
    requires Good(cfg, s) && Enabled(cfg, s, a) && j in s.jobs && Good(cfg, Apply(cfg, s, a))
    ensures var next := Apply(cfg, s, a);
            && j in next.jobs && next.jobs[j].counter == s.jobs[j].counter
            && (j in At(s, Done) ==> j in At(next, Done))
  {
    hide Good, Enabled, Apply, At;
    StepKeepsPromise(cfg, s, a, j);
    DoneIsFinalized(cfg, s, j);
    DoneIsFinalized(cfg, Apply(cfg, s, a), j);
  }

  /** Over any continuation of a run: a job keeps its counter through every suspension, and once done stays done. */
  lemma {:induction false} PromisesLast(cfg: Config, schedule: seq<Action>, more: seq<Action>, j: Job)
    requires Execute(cfg, schedule).Some? && Execute(cfg, schedule + more).Some?
    requires j in Execute(cfg, schedule).value.jobs
    ensures var s := Execute(cfg, schedule).value;
            var later := Execute(cfg, schedule + more).value;
            && j in later.jobs
            && later.jobs[j].counter == s.jobs[j].counter
            && (j in At(s, Done) ==> j in At(later, Done))
    decreases |more|
  {
    hide Execute, Enabled, Apply, At, Good;
    if more == [] {
      assert schedule + more == schedule;
    } else {
      var most, a := more[..|more| - 1], more[|more| - 1];
      LastStep(cfg, schedule, more);
      PromisesLast(cfg, schedule, most, j);
      ReachedIsGood(cfg, schedule + most);
      ReachedIsGood(cfg, schedule + more);
      StepKeepsDone(cfg, Execute(cfg, schedule + most).value, a, j);
    }
  }

  lemma DoneIsFinalized(cfg: Config, s: State, j: Job)
    requires Good(cfg, s) && j in s.jobs
    ensures j in At(s, Done) <==> s.jobs[j].phase == Finalized
  {
    assert Somewhere(s, j);
    var p :| j in At(s, p);
    assert TagOk(s, p, j) && TagOk(s, Done, j);
  }
}

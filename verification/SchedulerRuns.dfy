/**
 * What holds in every state the scheduler can reach, whatever the interleaving.
 */
module SchedulerRuns {
  import opened Wrappers
  import opened JobTypes
  import opened Scheduler
  import opened SchedulerPlaces
  import opened SchedulerSteps
  import opened SchedulerCache

  // ---------------------------------------------------------------- places

  lemma TopOk(cfg: Config, s: State, t: Thread)
    requires Good(cfg, s) && Alive(s, t)
    ensures FrameOk(Top(s, t), |s.stack[t]| - 1) && t <= cfg.workers
  {
  }

  lemma DispatchKeepsGood(cfg: Config, s: State, t: Thread, batch: set<Job>, p: Priority, c: Option<Counter>)
    requires Good(cfg, s) && Alive(s, t) && batch !! s.jobs.Keys
    ensures Good(cfg, Dispatch(s, t, batch, p, c))
  {
    var code := if c.Some? then Raise(c.value, p) else Submit(p, false);
    var promise := Promise(c, true, if c.Some? then Pending else Active);
    AddStep(cfg, s, t, batch, Frame(code, multiset(batch)), promise);
  }

  lemma AwaitChildKeepsGood(cfg: Config, s: State, t: Thread, j: Job)
    requires Good(cfg, s) && Alive(s, t) && j !in s.jobs
    ensures Good(cfg, AwaitChild(s, t, j))
  {
    AddStep(cfg, s, t, {j}, Frame(Body, multiset{j}), Promise(None, false, Active));
  }

  lemma SubmitKeepsGood(cfg: Config, s: State, t: Thread)
    requires Good(cfg, s) && Alive(s, t) && Top(s, t).code.Submit?
    ensures Good(cfg, DoSubmit(s, t))
  {
    TopOk(cfg, s, t);
    var code := Top(s, t).code;
    ReleaseStep(cfg, s, t, Local(t, code.priority), ClearWake(None));
    ReleasedTop(s, t, Local(t, code.priority), ClearWake(None));
    hide Release, Good;
    if !code.resumed {
      PopStep(cfg, Release(s, t, Local(t, code.priority), ClearWake(None)), t);
    }
  }

  /** Steps of application code, jobs and signals. */
  lemma CallStepKeepsGood(cfg: Config, s: State, a: Action)
    requires Good(cfg, s) && Enabled(cfg, s, a)
    requires a.ADispatch? || a.ARaise? || a.ASubmit? || a.ASuspend? || a.AFinalize? || a.AAwaitChild?
    ensures Good(cfg, Apply(cfg, s, a))
  {
    TopOk(cfg, s, a.t);
    hide Good, Dispatch, AwaitChild, DoSubmit, Finalize, DoRaise;
    match a
    case ADispatch(t, batch, p, c) => DispatchKeepsGood(cfg, s, t, batch, p, c);
    case ARaise(t) => RaiseStep(cfg, s, t);
    case ASubmit(t) => SubmitKeepsGood(cfg, s, t);
    case ASuspend(t) => CodeStep(cfg, s, t, Submit(Normal, true), Apply(cfg, s, a));
    case AFinalize(t, j) => FinalizeStep(cfg, s, t, j);
    case AAwaitChild(t, j) => AwaitChildKeepsGood(cfg, s, t, j);
  }

  lemma ReleasedTop(s: State, t: Thread, pool: Place, code: Code)
    requires Alive(s, t)
    ensures var next := Release(s, t, pool, code);
            Alive(next, t) && Top(next, t) == Frame(code, multiset{}) && |next.stack[t]| == |s.stack[t]|
  {
  }

  lemma RunCachedKeepsGood(cfg: Config, s: State, t: Thread, j: Job)
    requires Good(cfg, s) && Alive(s, t) && Top(s, t).code.Iterate? && j in At(s, Cache(t))
    ensures Good(cfg, Grab(s, t, Cache(t), multiset{j}, Body))
  {
    TopOk(cfg, s, t);
    GrabStep(cfg, s, t, Cache(t), multiset{j}, Body);
  }

  lemma TakeKeepsGood(cfg: Config, s: State, t: Thread, pool: Place, taken: multiset<Job>, code: Code)
    requires Good(cfg, s) && Alive(s, t) && taken <= At(s, pool) && (pool.Local? || pool.Stealable?)
    requires Top(s, t).code.MigrateTake? || Top(s, t).code.Fill?
    requires code.MigratePut? || code.Fill? || code.Filled?
    ensures Good(cfg, Grab(s, t, pool, taken, code))
  {
    TopOk(cfg, s, t);
    GrabStep(cfg, s, t, pool, taken, code);
  }

  /** Steps of an iteration that move handles between queues, cache and hands. */
  lemma FetchStepKeepsGood(cfg: Config, s: State, a: Action)
    requires Good(cfg, s) && Enabled(cfg, s, a)
    requires a.ARunCached? || a.AMigrateTake? || a.AMigratePut? || a.ATake? || a.ASettle?
    requires a.ASettle? ==> At(s, Cache(a.t)) == multiset{}
    ensures Good(cfg, Apply(cfg, s, a))
  {
    TopOk(cfg, s, a.t);
    var top := Top(s, a.t);
    hide Good, At, Release, Grab, Settle;
    match a
    case ARunCached(t, j) => RunCachedKeepsGood(cfg, s, t, j);
    case AMigrateTake(t, taken) =>
      TakeKeepsGood(cfg, s, t, Local(t, top.code.priority), taken, MigratePut(top.code.priority));
    case AMigratePut(t) =>
      ReleaseStep(cfg, s, t, Stealable(t, top.code.priority), AfterMigrate(top.code.priority));
    case ATake(t, taken) =>
      TakeKeepsGood(cfg, s, t, SourcePlace(cfg, t, top.code.source, top.code.priority), taken,
                    AfterFill(top.code.source, top.code.priority));
    case ASettle(t, victim) => SettleStepKeepsGood(cfg, s, t, victim);
  }

  /** Publishing into an empty cache is a move of the batch; into any other it would overwrite jobs. */
  lemma PublishKeepsGood(cfg: Config, s: State, t: Thread)
    requires Good(cfg, s) && Alive(s, t) && Top(s, t).code.Filled?
    ensures Good(cfg, Publish(s, t)) <==> At(s, Cache(t)) == multiset{}
  {
    hide Good;
    TopOk(cfg, s, t);
    if At(s, Cache(t)) == multiset{} {
      PublishIsMove(s, t);
      hide At, Release, Pop, Publish;
      ReleaseStep(cfg, s, t, Cache(t), Iterate);
      ReleasedTop(s, t, Cache(t), Iterate);
      PopStep(cfg, Release(s, t, Cache(t), Iterate), t);
    } else {
      var j :| j in At(s, Cache(t));
      OverwrittenIsLost(cfg, s, t, j);
    }
  }

  lemma PublishIsMove(s: State, t: Thread)
    requires Alive(s, t) && At(s, Cache(t)) == multiset{}
    ensures Publish(s, t) == Pop(Release(s, t, Cache(t), Iterate), t)
  {
    assert multiset{} + Top(s, t).held == Top(s, t).held;
    assert Pop(Release(s, t, Cache(t), Iterate), t).stack[t] == Publish(s, t).stack[t];
    assert Pop(Release(s, t, Cache(t), Iterate), t).stack == Publish(s, t).stack;
  }

  lemma PublishedAt(s: State, t: Thread, p: Place)
    requires Alive(s, t)
    ensures At(Publish(s, t), p) == if p == Cache(t) then Top(s, t).held
                                    else if p == TopPlace(s, t) then multiset{} else At(s, p)
  {
  }

  /** A job that was cached is nowhere afterwards. */
  lemma OverwrittenIsLost(cfg: Config, s: State, t: Thread, j: Job)
    requires Good(cfg, s) && Alive(s, t) && j in At(s, Cache(t))
    ensures !Good(cfg, Publish(s, t))
  {
    var next := Publish(s, t);
    assert TagOk(s, Cache(t), j);
    HeldAtTop(s, t);
    forall p ensures j !in At(next, p) {
      PublishedAt(s, t, p);
      assert Single(s, Cache(t), p, j) && Single(s, Cache(t), TopPlace(s, t), j);
      hide At, Publish;
    }
    assert !Somewhere(next, j);
    assert j in next.jobs;
  }

  lemma SettleStepKeepsGood(cfg: Config, s: State, t: Thread, victim: Option<nat>)
    requires Good(cfg, s) && Alive(s, t) && Top(s, t).code.Filled? && At(s, Cache(t)) == multiset{}
    ensures Good(cfg, Settle(s, t, victim))
  {
    hide Good, At, Publish;
    TopOk(cfg, s, t);
    var top := Top(s, t);
    if top.held != multiset{} {
      PublishKeepsGood(cfg, s, t);
    } else if top.code.source.Global? {
      hide ReportEmpty;
      ReportEmptyStep(cfg, s, t);
    } else {
      var source := top.code.source;
      var code := if source.Own? && victim.Some? then Fill(Victim(victim.value), High) else Fill(Global, High);
      hide ReportEmpty;
      CodeStep(cfg, s, t, code, WithCode(s, t, code));
    }
  }

  /** Steps that move no handle. */
  lemma QuietStepKeepsGood(cfg: Config, s: State, a: Action)
    requires Good(cfg, s) && Enabled(cfg, s, a)
    requires a.AClearWake? || a.ANotifyWake? || a.AIterate? || a.AWait? || a.ACheck? || a.AStartFill?
    ensures Good(cfg, Apply(cfg, s, a))
  {
    TopOk(cfg, s, a.t);
    var next := Apply(cfg, s, a);
    match a
    case AClearWake(t) => CodeStep(cfg, s, t, NotifyWake(Top(s, t).code.finished), next);
    case ANotifyWake(t) => NotifyStep(cfg, s, t);
    case AIterate(t) => PushStep(cfg, s, t, Iterate);
    case AWait(t, c) => PushStep(cfg, s, t, Waiting(c, Check));
    case ACheck(t) =>
      if Count(s, Top(s, t).code.counter) > 0 { PushStep(cfg, s, t, Iterate); } else { PopStep(cfg, s, t); }
    case AStartFill(t, migrate) => CodeStep(cfg, s, t, Top(next, t).code, next);
  }

  /** Steps inside the waiting loop. */
  lemma WaitStepKeepsGood(cfg: Config, s: State, a: Action)
    requires Good(cfg, s) && Enabled(cfg, s, a)
    requires a.AArm? || a.ARecheck? || a.ADisarm? || a.AEnterWait? || a.ASpuriousWake?
    ensures Good(cfg, Apply(cfg, s, a))
  {
    TopOk(cfg, s, a.t);
    var next := Apply(cfg, s, a);
    CodeStep(cfg, s, a.t, Top(next, a.t).code, next);
  }

  lemma StepKeepsGood(cfg: Config, s: State, a: Action)
    requires Good(cfg, s) && Tidy(cfg, s) && Enabled(cfg, s, a)
    ensures Good(cfg, Apply(cfg, s, a))
  {
    if a.ASettle? {
      FetchFacts(cfg, s, a.t, |s.stack[a.t]| - 1);
    }
    hide Good, Apply, Enabled, Tidy, At;
    if a.ADispatch? || a.ARaise? || a.ASubmit? || a.ASuspend? || a.AFinalize? || a.AAwaitChild? {
      CallStepKeepsGood(cfg, s, a);
    } else if a.ARunCached? || a.AMigrateTake? || a.AMigratePut? || a.ATake? || a.ASettle? {
      FetchStepKeepsGood(cfg, s, a);
    } else if a.AArm? || a.ARecheck? || a.ADisarm? || a.AEnterWait? || a.ASpuriousWake? {
      WaitStepKeepsGood(cfg, s, a);
    } else {
      QuietStepKeepsGood(cfg, s, a);
    }
  }

  lemma InitialIsGood(cfg: Config)
    ensures Good(cfg, Initial(cfg))
  {
    var s := Initial(cfg);
    assert forall p :: At(s, p) == multiset{};
  }

  lemma {:induction false} ReachedIsGood(cfg: Config, schedule: seq<Action>)
    requires Execute(cfg, schedule).Some?
    ensures Good(cfg, Execute(cfg, schedule).value)
  {
    hide Good, Tidy;
    if schedule == [] {
      InitialIsGood(cfg);
    } else {
      var before := schedule[..|schedule| - 1];
      ReachedIsGood(cfg, before);
      ReachedIsTidy(cfg, before);
      StepKeepsGood(cfg, Execute(cfg, before).value, schedule[|schedule| - 1]);
    }
  }

  /** Every dispatched job is in exactly one place, exactly once; nothing else is anywhere. */
  lemma EveryJobInOnePlace(cfg: Config, schedule: seq<Action>, j: Job)
    requires Execute(cfg, schedule).Some?
    ensures var s := Execute(cfg, schedule).value;
            if j in s.jobs
            then exists p :: At(s, p)[j] == 1 && forall q :: q != p ==> j !in At(s, q)
            else forall p :: j !in At(s, p)
  {
    var s := Execute(cfg, schedule).value;
    ReachedIsGood(cfg, schedule);
    if j in s.jobs {
      assert Somewhere(s, j);
      var p :| j in At(s, p);
      assert Single(s, p, p, j);
      forall q | q != p ensures j !in At(s, q) {
        assert Single(s, p, q, j);
      }
    } else {
      assert !Somewhere(s, j);
    }
  }

  /** No job is run by two frames at once, on one thread or on two; a running job is in no queue or cache. */
  lemma NeverRunTwice(cfg: Config, schedule: seq<Action>, t: Thread, d: nat, p: Place, j: Job)
    requires Execute(cfg, schedule).Some?
    requires var s := Execute(cfg, schedule).value;
             && t < |s.stack| && d < |s.stack[t]| && s.stack[t][d] == Frame(Body, multiset{j})
             && j in At(s, p)
    ensures p == Hand(t, d)
  {
    var s := Execute(cfg, schedule).value;
    ReachedIsGood(cfg, schedule);
    assert j in At(s, Hand(t, d));
    assert Single(s, p, Hand(t, d), j);
  }
}

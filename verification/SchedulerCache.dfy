/**
 * The job caches.  Fetching overwrites the cache, and a running job can fetch in a nested
 * iteration; yet a batch is only ever fetched into an empty cache.
 */
module SchedulerCache {
  import opened Wrappers
  import opened JobTypes
  import opened Scheduler
  import opened SchedulerWake

  /** In the part of an iteration that fetches a batch. */
  predicate Fetching(code: Code) {
    code.MigrateTake? || code.MigratePut? || code.Fill? || code.Filled?
  }

  /** What a frame fetches fits into the cache. */
  predicate FitsCache(cfg: Config, f: Frame) {
    f.code.Iterate? || f.code.MigrateTake? || f.code.Fill? || f.code.Filled? ==> |f.held| <= cfg.cacheSize
  }

  /** Only the top frame can be fetching: the fetching part of an iteration calls no job. */
  ghost predicate StackTidy(cfg: Config, fs: seq<Frame>) {
    && (forall d :: 0 <= d < |fs| ==> FitsCache(cfg, fs[d]))
    && (forall d :: 0 <= d < |fs| - 1 ==> !Fetching(fs[d].code))
  }

  /** The cache is within its size, and empty while its thread is fetching. */
  ghost predicate CacheTidy(cfg: Config, s: State, t: Thread) {
    && |At(s, Cache(t))| <= cfg.cacheSize
    && (Alive(s, t) && Fetching(Top(s, t).code) ==> At(s, Cache(t)) == multiset{})
  }

  ghost predicate Tidy(cfg: Config, s: State) {
    && (forall t :: 0 <= t < |s.stack| ==> StackTidy(cfg, s.stack[t]))
    && (forall t: Thread :: CacheTidy(cfg, s, t))
  }

  // ---------------------------------------------------------------- the acting thread's stack

  lemma JobStepTidy(cfg: Config, s: State, a: Action, next: State)
    requires Enabled(cfg, s, a) && next == Apply(cfg, s, a) && StackTidy(cfg, s.stack[a.t]) && JobStep(a)
    ensures a.t < |next.stack| && StackTidy(cfg, next.stack[a.t])
    ensures Alive(next, a.t) ==> !Fetching(Top(next, a.t).code)
  {
    hide At, SetPool, Enlist, SetPhase, Lowered, Finalize, DoSubmit;
    if a.AFinalize? {
      FinalizeTidy(cfg, s, a.t, a.job);
    } else if a.ASubmit? {
      SubmitTidy(cfg, s, a.t);
    }
  }

  lemma FinalizeTidy(cfg: Config, s: State, t: Thread, j: Job)
    requires Alive(s, t) && j in s.jobs && StackTidy(cfg, s.stack[t])
    ensures var next := Finalize(s, t, j);
            && |next.stack| == |s.stack| && StackTidy(cfg, next.stack[t])
            && (Alive(next, t) ==> !Fetching(Top(next, t).code))
  {
    hide At, SetPool, Lowered;
  }

  lemma SubmitTidy(cfg: Config, s: State, t: Thread)
    requires Alive(s, t) && Top(s, t).code.Submit? && StackTidy(cfg, s.stack[t])
    ensures var next := DoSubmit(s, t);
            && |next.stack| == |s.stack| && StackTidy(cfg, next.stack[t])
            && (Alive(next, t) ==> !Fetching(Top(next, t).code))
  {
    hide At, SetPool;
  }

  lemma CallStepTidy(cfg: Config, s: State, a: Action, next: State)
    requires Enabled(cfg, s, a) && next == Apply(cfg, s, a) && StackTidy(cfg, s.stack[a.t])
    requires CallStep(a) && !JobStep(a)
    ensures a.t < |next.stack| && StackTidy(cfg, next.stack[a.t])
    ensures Alive(next, a.t) ==> !Fetching(Top(next, a.t).code)
  {
    hide At, SetPool, Notify;
    if a.ANotifyWake? {
      hide Apply, StackTidy;
      NotifyTidy(cfg, s, a.t);
      NotifyIs(cfg, s, a);
    }
  }

  lemma NotifyIs(cfg: Config, s: State, a: Action)
    requires Enabled(cfg, s, a) && a.ANotifyWake?
    ensures Apply(cfg, s, a) == Notify(s, a.t)
  {
    hide Notify;
  }

  lemma NotifyTidy(cfg: Config, s: State, t: Thread)
    requires Alive(s, t) && StackTidy(cfg, s.stack[t])
    ensures var next := Notify(s, t);
            && |next.stack| == |s.stack| && StackTidy(cfg, next.stack[t])
            && (Alive(next, t) ==> !Fetching(Top(next, t).code))
  {
    PoppedIsTidy(cfg, s, t);
    WokenIsTidy(cfg, Pop(s, t).stack[t]);
    hide StackTidy, Woken;
  }

  lemma PoppedIsTidy(cfg: Config, s: State, t: Thread)
    requires Alive(s, t) && StackTidy(cfg, s.stack[t])
    ensures Alive(Pop(s, t), t) ==> !Fetching(Top(Pop(s, t), t).code)
    ensures StackTidy(cfg, Pop(s, t).stack[t]) && StackTidy(cfg, ReportEmpty(s, t).stack[t])
  {
  }

  lemma SettleStepTidy(cfg: Config, s: State, t: Thread, victim: Option<nat>)
    requires Alive(s, t) && Top(s, t).code.Filled? && StackTidy(cfg, s.stack[t])
    ensures var next := Settle(s, t, victim);
            && |next.stack| == |s.stack| && StackTidy(cfg, next.stack[t])
            && (Top(s, t).held != multiset{} && Alive(next, t) ==> !Fetching(Top(next, t).code))
  {
    hide At, SetPool;
    PoppedIsTidy(cfg, s, t);
    if Top(s, t).held != multiset{} || Top(s, t).code.source.Global? {
      hide StackTidy;
    }
  }

  lemma OtherStepTidy(cfg: Config, s: State, a: Action, next: State)
    requires Enabled(cfg, s, a) && next == Apply(cfg, s, a) && StackTidy(cfg, s.stack[a.t])
    requires !CallStep(a) && !a.ASettle?
    ensures a.t < |next.stack| && StackTidy(cfg, next.stack[a.t])
    ensures a.ARunCached? && Alive(next, a.t) ==> !Fetching(Top(next, a.t).code)
    ensures Alive(next, a.t) && Fetching(Top(next, a.t).code) ==> a.AStartFill? || Fetching(Top(s, a.t).code)
  {
    hide At, SetPool;
  }

  // ---------------------------------------------------------------- the caches

  /** The pool that a step takes handles from or puts them into, if any. */
  function PoolOf(cfg: Config, s: State, a: Action): Place
    requires Alive(s, a.t)
  {
    var code := Top(s, a.t).code;
    match a
    case ASubmit(t) => if code.Submit? then Local(t, code.priority) else Done
    case AMigrateTake(t, _) => if code.MigrateTake? then Local(t, code.priority) else Done
    case AMigratePut(t) => if code.MigratePut? then Stealable(t, code.priority) else Done
    case ATake(t, _) => if code.Fill? then SourcePlace(cfg, t, code.source, code.priority) else Done
    case ARunCached(t, _) => Cache(t)
    case ASettle(t, _) => Cache(t)
    case _ => Done
  }

  lemma PoolsChangeOnce(cfg: Config, s: State, a: Action)
    requires Enabled(cfg, s, a)
    ensures Apply(cfg, s, a).pools == s.pools
            || exists m :: Apply(cfg, s, a).pools == SetPool(s.pools, PoolOf(cfg, s, a), m)
  {
    hide SetPool, At;
    if JobStep(a) {
      var p := PoolOf(cfg, s, a);
      hide Enlist, SetPhase, Lowered;
      assert a.ASubmit? || a.AFinalize? ==> Apply(cfg, s, a).pools == SetPool(s.pools, p, At(s, p) + Top(s, a.t).held);
    } else if a.ASettle? {
      hide Settle;
      SettleChangesPoolsOnce(s, a.t, a.victim);
      assert Top(s, a.t).held != multiset{} ==>
          Apply(cfg, s, a).pools == SetPool(s.pools, PoolOf(cfg, s, a), Top(s, a.t).held);
    } else if a.AMigrateTake? || a.ATake? || a.ARunCached? || a.AMigratePut? {
      FetchChangesPoolsOnce(cfg, s, a);
    } else {
      hide Settle, Dispatch, AwaitChild, DoRaise, DoSubmit, Finalize;
    }
  }

  lemma FetchChangesPoolsOnce(cfg: Config, s: State, a: Action)
    requires Enabled(cfg, s, a) && (a.AMigrateTake? || a.ATake? || a.ARunCached? || a.AMigratePut?)
    ensures exists m :: Apply(cfg, s, a).pools == SetPool(s.pools, PoolOf(cfg, s, a), m)
  {
    hide SetPool, At;
    var p := PoolOf(cfg, s, a);
    var there := At(s, p);
    assert Apply(cfg, s, a).pools
        == SetPool(s.pools, p, if a.AMigratePut? then there + Top(s, a.t).held
                               else there - if a.ARunCached? then multiset{a.job} else a.taken);
  }

  lemma SettleChangesPoolsOnce(s: State, t: Thread, victim: Option<nat>)
    requires Alive(s, t) && Top(s, t).code.Filled?
    ensures var next := Settle(s, t, victim);
            if Top(s, t).held == multiset{} then next.pools == s.pools
            else next.pools == SetPool(s.pools, Cache(t), Top(s, t).held)
  {
    hide At, SetPool;
  }

  lemma PoolElsewhere(s: State, next: State, p: Place, m: multiset<Job>, q: Place)
    requires next.pools == SetPool(s.pools, p, m) && !q.Hand?
    ensures At(next, q) == if q == p then m else At(s, q)
  {
  }

  lemma SamePools(s: State, next: State, q: Place)
    requires next.pools == s.pools && !q.Hand?
    ensures At(next, q) == At(s, q)
  {
  }

  /** Only running a cached job and publishing change a cache. */
  lemma CachesStay(cfg: Config, s: State, a: Action, next: State, u: Thread)
    requires Enabled(cfg, s, a) && next == Apply(cfg, s, a)
    requires u != a.t || (!a.ARunCached? && !a.ASettle?)
    ensures At(next, Cache(u)) == At(s, Cache(u))
  {
    PoolsChangeOnce(cfg, s, a);
    hide Apply, Enabled, At, SetPool;
    if next.pools == s.pools {
      SamePools(s, next, Cache(u));
    } else {
      var m :| next.pools == SetPool(s.pools, PoolOf(cfg, s, a), m);
      PoolElsewhere(s, next, PoolOf(cfg, s, a), m, Cache(u));
    }
  }

  lemma PublishedCache(s: State, t: Thread, victim: Option<nat>)
    requires Alive(s, t) && Top(s, t).code.Filled?
    ensures At(Settle(s, t, victim), Cache(t))
         == if Top(s, t).held == multiset{} then At(s, Cache(t)) else Top(s, t).held
  {
    SettleChangesPoolsOnce(s, t, victim);
    hide Settle;
  }

  lemma RunShrinksCache(s: State, t: Thread, j: Job)
    requires Alive(s, t) && j in At(s, Cache(t))
    ensures At(Grab(s, t, Cache(t), multiset{j}, Body), Cache(t)) <= At(s, Cache(t))
  {
  }

  lemma SmallerFits(a: multiset<Job>, b: multiset<Job>, n: nat)
    requires a <= b && |b| <= n
    ensures |a| <= n
  {
    assert b == a + (b - a);
  }

  // ---------------------------------------------------------------- every step

  /** The acting thread's stack and cache. */
  lemma OwnStepTidy(cfg: Config, s: State, a: Action, next: State)
    requires Enabled(cfg, s, a) && next == Apply(cfg, s, a)
    requires StackTidy(cfg, s.stack[a.t]) && CacheTidy(cfg, s, a.t)
    ensures a.t < |next.stack| && StackTidy(cfg, next.stack[a.t]) && CacheTidy(cfg, next, a.t)
  {
    if a.ASettle? {
      SettleStepTidy(cfg, s, a.t, a.victim);
      PublishedCache(s, a.t, a.victim);
      TopFits(cfg, s, a.t);
      hide At, Settle, StackTidy;
    } else if a.ARunCached? {
      OtherStepTidy(cfg, s, a, next);
      RunShrinksCache(s, a.t, a.job);
      SmallerFits(At(next, Cache(a.t)), At(s, Cache(a.t)), cfg.cacheSize);
      hide At, Grab, StackTidy;
    } else {
      CachesStay(cfg, s, a, next, a.t);
      OwnQuietTidy(cfg, s, a, next);
      hide Apply, At, StackTidy;
    }
  }

  lemma TopFits(cfg: Config, s: State, t: Thread)
    requires Alive(s, t) && StackTidy(cfg, s.stack[t])
    ensures FitsCache(cfg, Top(s, t))
  {
  }

  /** A thread starts to fetch only when its cache is empty. */
  lemma OwnQuietTidy(cfg: Config, s: State, a: Action, next: State)
    requires Enabled(cfg, s, a) && next == Apply(cfg, s, a) && StackTidy(cfg, s.stack[a.t])
    requires !a.ASettle? && !a.ARunCached?
    ensures a.t < |next.stack| && StackTidy(cfg, next.stack[a.t])
    ensures Alive(next, a.t) && Fetching(Top(next, a.t).code) ==>
              Fetching(Top(s, a.t).code) || At(s, Cache(a.t)) == multiset{}
  {
    hide Apply, StackTidy;
    if JobStep(a) { JobStepTidy(cfg, s, a, next); }
    else if CallStep(a) { CallStepTidy(cfg, s, a, next); }
    else { OtherStepTidy(cfg, s, a, next); }
  }

  lemma WokenIsTidy(cfg: Config, fs: seq<Frame>)
    requires StackTidy(cfg, fs)
    ensures StackTidy(cfg, Woken(fs))
    ensures fs != [] && Fetching(Last(Woken(fs)).code) ==> Fetching(Last(fs).code)
  {
  }

  lemma StepKeepsTidy(cfg: Config, s: State, a: Action, next: State)
    requires Enabled(cfg, s, a) && next == Apply(cfg, s, a) && Tidy(cfg, s)
    ensures Tidy(cfg, next)
  {
    StepTouchesOneStack(cfg, s, a, next);
    assert Alive(s, a.t);
    OwnStepTidy(cfg, s, a, next);
    hide Enabled, Apply, StackTidy, At;
    forall t | 0 <= t < |next.stack| ensures StackTidy(cfg, next.stack[t]) {
      if t != a.t { WokenIsTidy(cfg, s.stack[t]); }
    }
    forall t: Thread ensures CacheTidy(cfg, next, t) {
      if t != a.t {
        assert CacheTidy(cfg, s, t);
        CachesStay(cfg, s, a, next, t);
        if t < |s.stack| { WokenIsTidy(cfg, s.stack[t]); }
      }
    }
  }

  lemma InitialIsTidy(cfg: Config)
    ensures Tidy(cfg, Initial(cfg))
  {
    var s := Initial(cfg);
    forall t | 0 <= t < |s.stack| ensures StackTidy(cfg, s.stack[t]) {
      assert s.stack[t] == [Frame(Outside, multiset{})];
    }
  }

  // ---------------------------------------------------------------- every run

  lemma {:induction false} ReachedIsTidy(cfg: Config, schedule: seq<Action>)
    requires Execute(cfg, schedule).Some?
    ensures Tidy(cfg, Execute(cfg, schedule).value)
  {
    hide Tidy, Apply, Enabled;
    if schedule == [] {
      InitialIsTidy(cfg);
    } else {
      var before := schedule[..|schedule| - 1];
      ReachedIsTidy(cfg, before);
      var s := Execute(cfg, before).value;
      StepKeepsTidy(cfg, s, schedule[|schedule| - 1], Apply(cfg, s, schedule[|schedule| - 1]));
    }
  }

  /**
   * Over every schedule a cache is within its size, and a batch is only fetched into an empty
   * cache, by code that no job runs above.
   */
  lemma FetchesIntoEmptyCache(cfg: Config, schedule: seq<Action>, t: Thread, d: nat)
    requires Execute(cfg, schedule).Some?
    ensures var s := Execute(cfg, schedule).value;
            && |At(s, Cache(t))| <= cfg.cacheSize
            && (t < |s.stack| && d < |s.stack[t]| && Fetching(s.stack[t][d].code) ==>
                  d == |s.stack[t]| - 1 && At(s, Cache(t)) == multiset{})
  {
    ReachedIsTidy(cfg, schedule);
    hide Execute, At;
    FetchFacts(cfg, Execute(cfg, schedule).value, t, d);
  }

  lemma FetchFacts(cfg: Config, s: State, t: Thread, d: nat)
    requires Tidy(cfg, s)
    ensures |At(s, Cache(t))| <= cfg.cacheSize
    ensures t < |s.stack| && d < |s.stack[t]| && Fetching(s.stack[t][d].code) ==>
              d == |s.stack[t]| - 1 && At(s, Cache(t)) == multiset{}
  {
    hide At, Fetching;
    assert CacheTidy(cfg, s, t);
  }
}

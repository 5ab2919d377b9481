/** Pieces of which runs are built: a thread dispatches, fetches, waits, finishes a job or falls asleep. */
module SchedulerMoves {
  import opened Wrappers
  import opened Basics
  import opened JobTypes
  import opened Scheduler
  import opened SchedulerWake
  import opened SchedulerCache

  /** The threads that call wait_for_counter in a schedule. */
  function Waiters(schedule: seq<Action>): set<Thread> {
    set i | 0 <= i < |schedule| && schedule[i].AWait? :: schedule[i].t
  }

  ghost predicate NoEmptyEntry(pools: map<Place, multiset<Job>>) {
    forall p :: p in pools ==> pools[p] != multiset{}
  }

  /** A dequeue comes back with everything that is there, as far as there is room for it. */
  predicate Thorough(cfg: Config, s: State, a: Action) {
    match a
    case ATake(t, taken) =>
      && Alive(s, t) && Top(s, t).code.Fill? && |Top(s, t).held| <= cfg.cacheSize
      && |taken| == Min(cfg.cacheSize - |Top(s, t).held|,
                        |At(s, SourcePlace(cfg, t, Top(s, t).code.source, Top(s, t).code.priority))|)
    case AMigrateTake(t, taken) =>
      && Alive(s, t) && Top(s, t).code.MigrateTake?
      && |taken| == Min(MOVE_COUNT, |At(s, Local(t, Top(s, t).code.priority))|)
    case _ => true
  }

  /** No dequeue of the run misses a job. */
  ghost predicate ThoroughRun(cfg: Config, schedule: seq<Action>)
    decreases |schedule|
  {
    schedule == [] ||
    (var before := schedule[..|schedule| - 1];
     && ThoroughRun(cfg, before)
     && Execute(cfg, before).Some? && Thorough(cfg, Execute(cfg, before).value, schedule[|schedule| - 1]))
  }

  /** `schedule` reaches `s`, with waits by `ws` only, and without missing a job. */
  ghost predicate Reaches(cfg: Config, schedule: seq<Action>, s: State, ws: set<Thread>) {
    && Execute(cfg, schedule) == Some(s) && Waiters(schedule) <= ws && ThoroughRun(cfg, schedule)
    && |s.stack| == cfg.workers + 1 && NoEmptyEntry(s.pools)
  }

  /** Action `a` can happen in `s`, misses no job, and leads to `next`. */
  predicate Leads(cfg: Config, s: State, a: Action, next: State) {
    Enabled(cfg, s, a) && Thorough(cfg, s, a) && Apply(cfg, s, a) == next
  }

  lemma Extend(cfg: Config, schedule: seq<Action>, s: State, a: Action, next: State, ws: set<Thread>)
    returns (more: seq<Action>)
    requires Reaches(cfg, schedule, s, ws) && Leads(cfg, s, a, next) && (a.AWait? ==> a.t in ws)
    ensures Reaches(cfg, more, next, ws)
  {
    more := schedule + [a];
    ExtendRun(cfg, schedule, s, a);
    ExtendWaiters(schedule, a, ws);
    StepTouchesOneStack(cfg, s, a, Apply(cfg, s, a));
    PoolsKeepForm(cfg, s, a);
    hide Apply, Enabled, Thorough, ThoroughRun, Execute, Waiters, NoEmptyEntry;
  }

  lemma ExtendRun(cfg: Config, schedule: seq<Action>, s: State, a: Action)
    requires Execute(cfg, schedule) == Some(s) && ThoroughRun(cfg, schedule)
    requires Enabled(cfg, s, a) && Thorough(cfg, s, a)
    ensures Execute(cfg, schedule + [a]) == Some(Apply(cfg, s, a)) && ThoroughRun(cfg, schedule + [a])
  {
    assert (schedule + [a])[..|schedule|] == schedule;
    hide Enabled, Apply, Thorough;
  }

  lemma ExtendWaiters(schedule: seq<Action>, a: Action, ws: set<Thread>)
    requires Waiters(schedule) <= ws && (a.AWait? ==> a.t in ws)
    ensures Waiters(schedule + [a]) <= ws
  {
    var more := schedule + [a];
    forall t | t in Waiters(more) ensures t in ws {
      var i :| 0 <= i < |more| && more[i].AWait? && more[i].t == t;
      if i < |schedule| { assert schedule[i].t in Waiters(schedule); }
    }
  }

  lemma PoolsKeepForm(cfg: Config, s: State, a: Action)
    requires Enabled(cfg, s, a) && NoEmptyEntry(s.pools)
    ensures NoEmptyEntry(Apply(cfg, s, a).pools)
  {
    PoolsChangeOnce(cfg, s, a);
    hide Apply, Enabled;
  }

  lemma EmptyGrab(s: State, t: Thread, p: Place, code: Code)
    requires Alive(s, t) && NoEmptyEntry(s.pools) && !p.Hand?
    ensures Grab(s, t, p, multiset{}, code) == WithCode(s, t, code)
  {
    var top := Top(s, t);
    assert top.held + multiset{} == top.held;
    assert At(s, p) - multiset{} == At(s, p);
    assert SetPool(s.pools, p, At(s, p)) == s.pools;
  }

  lemma CodeTwice(s: State, t: Thread, first: Code, second: Code)
    requires Alive(s, t)
    ensures var s1 := WithCode(s, t, first);
            && Alive(s1, t) && Top(s1, t) == Frame(first, Top(s, t).held)
            && WithCode(s1, t, second) == WithCode(s, t, second)
  {
    assert WithCode(WithCode(s, t, first), t, second).stack[t] == WithCode(s, t, second).stack[t];
    assert WithCode(WithCode(s, t, first), t, second).stack == WithCode(s, t, second).stack;
  }

  /** A fetch that comes back with nothing only moves the code on. */
  lemma EmptyTake(cfg: Config, schedule: seq<Action>, s: State, t: Thread, ws: set<Thread>) returns (more: seq<Action>)
    requires Reaches(cfg, schedule, s, ws) && Alive(s, t) && Top(s, t).code.Fill? && |Top(s, t).held| <= cfg.cacheSize
    requires SourcePlace(cfg, t, Top(s, t).code.source, Top(s, t).code.priority) !in s.pools
    ensures Reaches(cfg, more, WithCode(s, t, AfterFill(Top(s, t).code.source, Top(s, t).code.priority)), ws)
  {
    hide *;
    ReachedForm(cfg, schedule, s, ws);
    CanTakeNothing(cfg, s, t);
    more := Extend(cfg, schedule, s, ATake(t, multiset{}),
                   WithCode(s, t, AfterFill(Top(s, t).code.source, Top(s, t).code.priority)), ws);
  }

  lemma ReachedForm(cfg: Config, schedule: seq<Action>, s: State, ws: set<Thread>)
    requires Reaches(cfg, schedule, s, ws)
    ensures |s.stack| == cfg.workers + 1 && NoEmptyEntry(s.pools)
  {
  }

  lemma CanTakeNothing(cfg: Config, s: State, t: Thread)
    requires NoEmptyEntry(s.pools) && Alive(s, t) && Top(s, t).code.Fill? && |Top(s, t).held| <= cfg.cacheSize
    requires SourcePlace(cfg, t, Top(s, t).code.source, Top(s, t).code.priority) !in s.pools
    ensures Leads(cfg, s, ATake(t, multiset{}),
                  WithCode(s, t, AfterFill(Top(s, t).code.source, Top(s, t).code.priority)))
  {
    var code := Top(s, t).code;
    EmptyGrab(s, t, SourcePlace(cfg, t, code.source, code.priority), AfterFill(code.source, code.priority));
    hide Grab, WithCode;
  }

  /** A source has no jobs of any priority. */
  predicate Bare(cfg: Config, s: State, t: Thread, source: Source) {
    forall p: Priority :: SourcePlace(cfg, t, source, p) !in s.pools
  }

  lemma StaysBare(cfg: Config, s: State, t: Thread, code: Code, source: Source, p: Priority)
    requires Alive(s, t) && Bare(cfg, s, t, source)
    ensures Bare(cfg, WithCode(s, t, code), t, source)
    ensures SourcePlace(cfg, t, source, p) !in s.pools && SourcePlace(cfg, t, source, p) !in WithCode(s, t, code).pools
  {
    assert WithCode(s, t, code).pools == s.pools;
  }

  /** All three priorities of a source come back with nothing. */
  lemma EmptySource(cfg: Config, schedule: seq<Action>, s: State, t: Thread, source: Source, ws: set<Thread>)
    returns (more: seq<Action>)
    requires Reaches(cfg, schedule, s, ws) && Alive(s, t) && Top(s, t) == Frame(Fill(source, High), multiset{})
    requires Bare(cfg, s, t, source)
    ensures Reaches(cfg, more, WithCode(s, t, Filled(source)), ws)
  {
    StaysBare(cfg, s, t, Fill(source, High), source, High);
    StaysBare(cfg, s, t, Fill(source, Normal), source, Normal);
    StaysBare(cfg, s, t, Fill(source, Low), source, Low);
    hide Reaches, WithCode, Top, Alive, Bare, SourcePlace;
    more := EmptyTake(cfg, schedule, s, t, ws);
    CodeTwice(s, t, Fill(source, Normal), Fill(source, Low));
    more := EmptyTake(cfg, more, WithCode(s, t, Fill(source, Normal)), t, ws);
    CodeTwice(s, t, Fill(source, Low), Filled(source));
    more := EmptyTake(cfg, more, WithCode(s, t, Fill(source, Low)), t, ws);
  }

  /** Thread `t`, at the start of an iteration with an empty cache, goes on to the global queue empty-handed. */
  lemma ReachGlobal(cfg: Config, schedule: seq<Action>, s: State, t: Thread, ws: set<Thread>)
          returns (more: seq<Action>)
    requires Reaches(cfg, schedule, s, ws) && Alive(s, t) && Top(s, t) == Frame(Iterate, multiset{})
    requires At(s, Cache(t)) == multiset{} && cfg.workers > 0 && t <= cfg.workers
    requires Bare(cfg, s, t, if t < cfg.workers then Own else Victim(0))
    ensures Reaches(cfg, more, WithCode(s, t, Fill(Global, High)), ws)
  {
    hide *;
    var first := if t < cfg.workers then Fill(Own, High) else Filled(Own);
    CanStartFill(cfg, s, t);
    more := Extend(cfg, schedule, s, AStartFill(t, false), WithCode(s, t, first), ws);
    CodeTwice(s, t, first, Filled(Own));
    if t < cfg.workers {
      StaysBare(cfg, s, t, first, Own, High);
      more := EmptySource(cfg, more, WithCode(s, t, first), t, Own, ws);
      CanMoveOn(cfg, s, t, Own, None);
      more := Extend(cfg, more, WithCode(s, t, Filled(Own)), ASettle(t, None), WithCode(s, t, Fill(Global, High)), ws);
    } else {
      CanMoveOn(cfg, s, t, Own, Some(0));
      more := Extend(cfg, more, WithCode(s, t, Filled(Own)), ASettle(t, Some(0)),
                     WithCode(s, t, Fill(Victim(0), High)), ws);
      CodeTwice(s, t, Fill(Victim(0), High), Filled(Victim(0)));
      StaysBare(cfg, s, t, Fill(Victim(0), High), Victim(0), High);
      more := EmptySource(cfg, more, WithCode(s, t, Fill(Victim(0), High)), t, Victim(0), ws);
      CanMoveOn(cfg, s, t, Victim(0), Some(0));
      more := Extend(cfg, more, WithCode(s, t, Filled(Victim(0))), ASettle(t, Some(0)),
                     WithCode(s, t, Fill(Global, High)), ws);
    }
  }

  lemma CanStartFill(cfg: Config, s: State, t: Thread)
    requires Alive(s, t) && Top(s, t) == Frame(Iterate, multiset{}) && At(s, Cache(t)) == multiset{}
    ensures Leads(cfg, s, AStartFill(t, false),
                  WithCode(s, t, if t < cfg.workers then Fill(Own, High) else Filled(Own)))
  {
  }

  /** An empty-handed thread goes on to the next source. */
  lemma CanMoveOn(cfg: Config, s: State, t: Thread, source: Source, victim: Option<nat>)
    requires Alive(s, t) && Top(s, t).held == multiset{} && !source.Global?
    requires if victim.Some? then victim.value < cfg.workers && victim.value != t
             else cfg.workers == 0 || t < cfg.workers
    ensures var next := if source.Own? && victim.Some? then Fill(Victim(victim.value), High) else Fill(Global, High);
            Leads(cfg, WithCode(s, t, Filled(source)), ASettle(t, victim), WithCode(s, t, next))
  {
    var next := if source.Own? && victim.Some? then Fill(Victim(victim.value), High) else Fill(Global, High);
    CodeTwice(s, t, Filled(source), next);
    hide WithCode;
  }

  /** There is nothing in any queue that thread `t` looks into; the outside thread tries worker 0. */
  predicate NoWork(cfg: Config, s: State, t: Thread) {
    Bare(cfg, s, t, if t < cfg.workers then Own else Victim(0)) && Bare(cfg, s, t, Global)
  }

  /** A waiting loop looks once for work, finds none, and goes on to arm the flag. */
  lemma FruitlessLook(cfg: Config, schedule: seq<Action>, s: State, t: Thread, c: Counter, ws: set<Thread>)
    returns (more: seq<Action>)
    requires Reaches(cfg, schedule, s, ws) && Alive(s, t) && Top(s, t) == Frame(Waiting(c, Check), multiset{})
    requires Count(s, c) > 0 && At(s, Cache(t)) == multiset{} && cfg.workers > 0 && t <= cfg.workers
    requires NoWork(cfg, s, t)
    ensures Reaches(cfg, more, WithCode(s, t, Waiting(c, Arm)), ws)
  {
    hide *;
    var s1 := Push(s, t, Frame(Iterate, multiset{}));
    CanCheck(cfg, s, t, c);
    CodeTwice(s1, t, Fill(Global, High), Filled(Global));
    LookReturns(s, t, c);
    CanSettle(cfg, WithCode(s1, t, Filled(Global)), t);
    more := Extend(cfg, schedule, s, ACheck(t), s1, ws);
    more := ReachGlobal(cfg, more, s1, t, ws);
    StaysBare(cfg, s1, t, Fill(Global, High), Global, High);
    more := EmptySource(cfg, more, WithCode(s1, t, Fill(Global, High)), t, Global, ws);
    more := Extend(cfg, more, WithCode(s1, t, Filled(Global)), NothingFound(cfg, t),
                   WithCode(s, t, Waiting(c, Arm)), ws);
  }

  lemma CanCheck(cfg: Config, s: State, t: Thread, c: Counter)
    requires Alive(s, t) && Top(s, t) == Frame(Waiting(c, Check), multiset{}) && Count(s, c) > 0
    requires At(s, Cache(t)) == multiset{} && NoWork(cfg, s, t)
    ensures var s1 := Push(s, t, Frame(Iterate, multiset{}));
            && Leads(cfg, s, ACheck(t), s1) && Alive(s1, t) && Top(s1, t) == Frame(Iterate, multiset{})
            && At(s1, Cache(t)) == multiset{}
            && Bare(cfg, s1, t, if t < cfg.workers then Own else Victim(0)) && Bare(cfg, s1, t, Global)
  {
  }

  /** The end of an iteration that has found nothing; the outside thread has tried worker 0. */
  function NothingFound(cfg: Config, t: Thread): Action {
    ASettle(t, if t < cfg.workers then None else Some(0))
  }

  lemma CanSettle(cfg: Config, s: State, t: Thread)
    requires Alive(s, t) && Top(s, t) == Frame(Filled(Global), multiset{}) && cfg.workers > 0 && t <= cfg.workers
    ensures var a := NothingFound(cfg, t);
            a.t == t && !a.AWait? && Leads(cfg, s, a, ReportEmpty(s, t))
  {
  }

  lemma LookReturns(s: State, t: Thread, c: Counter)
    requires Alive(s, t) && Top(s, t) == Frame(Waiting(c, Check), multiset{})
    ensures var s1 := WithCode(Push(s, t, Frame(Iterate, multiset{})), t, Filled(Global));
            && Alive(s1, t) && Top(s1, t) == Frame(Filled(Global), multiset{})
            && ReportEmpty(s1, t) == WithCode(s, t, Waiting(c, Arm))
  {
    var s1 := WithCode(Push(s, t, Frame(Iterate, multiset{})), t, Filled(Global));
    assert Pop(s1, t).stack[t] == s.stack[t];
    assert Pop(s1, t).stack == s.stack;
  }

  /** The state after thread `t` has dispatched job `j`. */
  function Queued(s: State, t: Thread, j: Job, c: Option<Counter>): State {
    s.(pools := SetPool(s.pools, Local(t, Normal), At(s, Local(t, Normal)) + multiset{j}),
    jobs := s.jobs[j := Promise(c, true, Active)],
    count := if c.Some? then s.count[c.value := Count(s, c.value) + 1] else s.count)
  }

  /** Thread `t` is in the middle of dispatching job `j`. */
  function InDispatch(s: State, t: Thread, j: Job, c: Option<Counter>, phase: Phase, code: Code): State
    requires t < |s.stack|
  {
    s.(stack := s.stack[t := s.stack[t] + [Frame(code, multiset{j})]],
    jobs := s.jobs[j := Promise(c, true, phase)])
  }

  lemma DispatchOne(cfg: Config, schedule: seq<Action>, s: State, t: Thread, j: Job, c: Option<Counter>,
          ws: set<Thread>)
    returns (more: seq<Action>)
    requires Reaches(cfg, schedule, s, ws) && j !in s.jobs && t < |s.stack| && Alive(s, t) && MayCall(cfg, t, Top(s, t))
    ensures Reaches(cfg, more, Queued(s, t, j, c), ws)
  {
    hide *;
    var s2 := InDispatch(s, t, j, c, Active, Submit(Normal, false)).(
              count := if c.Some? then s.count[c.value := Count(s, c.value) + 1] else s.count);
    DispatchIs(s, t, j, c);
    CanDispatch(cfg, s, t, j, c);
    if c.Some? {
      more := RaisedDispatch(cfg, schedule, s, t, j, c, ws);
    } else {
      SameCount(s, t, j, c);
      more := Extend(cfg, schedule, s, ADispatch(t, {j}, Normal, c), s2, ws);
    }
    SubmitIs(s, t, j, c, s2);
    CanSubmit(cfg, s2, t);
    more := Extend(cfg, more, s2, ASubmit(t), Queued(s, t, j, c), ws);
  }

  lemma SameCount(s: State, t: Thread, j: Job, c: Option<Counter>)
    requires t < |s.stack|
    ensures var s2 := InDispatch(s, t, j, c, Active, Submit(Normal, false)); s2.(count := s.count) == s2
  {
  }

  lemma RaisedDispatch(cfg: Config, schedule: seq<Action>, s: State, t: Thread, j: Job, c: Option<Counter>,
          ws: set<Thread>)
    returns (more: seq<Action>)
    requires Reaches(cfg, schedule, s, ws) && j !in s.jobs && t < |s.stack| && Alive(s, t) && MayCall(cfg, t, Top(s, t))
    requires c.Some?
    ensures Reaches(cfg, more, InDispatch(s, t, j, c, Active, Submit(Normal, false)).(
                               count := s.count[c.value := Count(s, c.value) + 1]), ws)
  {
    hide *;
    var s1 := InDispatch(s, t, j, c, Pending, Raise(c.value, Normal));
    DispatchIs(s, t, j, c);
    RaiseIs(s, t, j, c);
    CanDispatch(cfg, s, t, j, c);
    CanRaise(cfg, s1, t);
    more := Extend(cfg, schedule, s, ADispatch(t, {j}, Normal, c), s1, ws);
    more := Extend(cfg, more, s1, ARaise(t), DoRaise(s1, t), ws);
  }

  lemma CanDispatch(cfg: Config, s: State, t: Thread, j: Job, c: Option<Counter>)
    requires Alive(s, t) && MayCall(cfg, t, Top(s, t)) && j !in s.jobs
    ensures Leads(cfg, s, ADispatch(t, {j}, Normal, c), Dispatch(s, t, {j}, Normal, c))
  {
  }

  lemma CanSubmit(cfg: Config, s: State, t: Thread)
    requires Alive(s, t) && Top(s, t).code.Submit?
    ensures Leads(cfg, s, ASubmit(t), DoSubmit(s, t))
  {
  }

  lemma CanRaise(cfg: Config, s: State, t: Thread)
    requires Alive(s, t) && Top(s, t).code.Raise?
    ensures Leads(cfg, s, ARaise(t), DoRaise(s, t))
  {
  }

  lemma DispatchIs(s: State, t: Thread, j: Job, c: Option<Counter>)
    requires Alive(s, t)
    ensures Dispatch(s, t, {j}, Normal, c)
         == if c.Some? then InDispatch(s, t, j, c, Pending, Raise(c.value, Normal))
            else InDispatch(s, t, j, c, Active, Submit(Normal, false))
  {
    assert multiset({j}) == multiset{j};
    var promise := Promise(c, true, if c.Some? then Pending else Active);
    assert Enlist(s.jobs, {j}, promise) == s.jobs[j := promise];
  }

  lemma SetPhaseOfOne(jobs: map<Job, Promise>, j: Job, c: Counter)
    ensures SetPhase(jobs[j := Promise(Some(c), true, Pending)], multiset{j}, Active)
         == jobs[j := Promise(Some(c), true, Active)]
  {
  }

  lemma RaiseIs(s: State, t: Thread, j: Job, c: Option<Counter>)
    requires t < |s.stack| && c.Some?
    ensures var s1 := InDispatch(s, t, j, c, Pending, Raise(c.value, Normal));
            && Alive(s1, t) && Top(s1, t).code == Raise(c.value, Normal)
            && DoRaise(s1, t) == InDispatch(s, t, j, c, Active, Submit(Normal, false)).(
                                 count := s.count[c.value := Count(s, c.value) + 1])
  {
    var s1 := InDispatch(s, t, j, c, Pending, Raise(c.value, Normal));
    var next := InDispatch(s, t, j, c, Active, Submit(Normal, false));
    hide At;
    assert |multiset{j}| == 1;
    assert DoRaise(s1, t).count == s.count[c.value := Count(s, c.value) + 1];
    assert SetPhase(s1.jobs, multiset{j}, Active) == next.jobs by { SetPhaseOfOne(s.jobs, j, c.value); }
    assert DoRaise(s1, t).stack[t] == next.stack[t];
    assert DoRaise(s1, t).stack == next.stack;
    assert DoRaise(s1, t).jobs == next.jobs;
    assert DoRaise(s1, t).pools == next.pools;
    assert DoRaise(s1, t).wake == next.wake;
  }

  lemma SubmitIs(s: State, t: Thread, j: Job, c: Option<Counter>, s2: State)
    requires t < |s.stack| && s2 == InDispatch(s, t, j, c, Active, Submit(Normal, false)).(count := s2.count)
    requires s2.count == if c.Some? then s.count[c.value := Count(s, c.value) + 1] else s.count
    ensures Alive(s2, t) && Top(s2, t) == Frame(Submit(Normal, false), multiset{j})
    ensures DoSubmit(s2, t) == Queued(s, t, j, c)
  {
    assert DoSubmit(s2, t).stack[t] == s.stack[t];
    assert DoSubmit(s2, t).stack == s.stack;
  }

  /** The code on top of thread `t` may start an iteration: it is idle, or waits for a counter that is not yet zero. */
  predicate Looks(s: State, t: Thread) {
    && Alive(s, t) && Top(s, t).held == multiset{}
    && var code := Top(s, t).code;
       code.Outside? || (code.Waiting? && code.point == Check && Count(s, code.counter) > 0)
  }

  function LookStep(s: State, t: Thread): Action
    requires Looks(s, t)
  {
    if Top(s, t).code.Outside? then AIterate(t) else ACheck(t)
  }

  lemma CanLook(cfg: Config, s: State, t: Thread)
    requires Looks(s, t)
    ensures var s1 := Push(s, t, Frame(Iterate, multiset{}));
            Leads(cfg, s, LookStep(s, t), s1) && Alive(s1, t) && Top(s1, t) == Frame(Iterate, multiset{})
  {
  }

  /** The state after thread `t` has made job `j` of the global queue its cache. */
  function Cached(cfg: Config, s: State, t: Thread, j: Job): State {
    s.(pools := SetPool(s.pools, Local(cfg.workers, Normal), At(s, Local(cfg.workers, Normal)) - multiset{j})[
                Cache(t) := multiset{j}])
  }

  /** Thread `t` has job `j` of the global queue in its hands and is at `code`. */
  function Carrying(cfg: Config, s: State, t: Thread, j: Job, code: Code): State
    requires t < |s.stack|
  {
    s.(stack := s.stack[t := s.stack[t] + [Frame(code, multiset{j})]],
    pools := SetPool(s.pools, Local(cfg.workers, Normal), At(s, Local(cfg.workers, Normal)) - multiset{j}))
  }

  /** Thread `t` fetches the only job there is, and runs it. */
  lemma FetchAndRun(cfg: Config, schedule: seq<Action>, s: State, t: Thread, j: Job, ws: set<Thread>)
    returns (more: seq<Action>)
    requires Reaches(cfg, schedule, s, ws) && cfg.workers > 0 && t <= cfg.workers && Looks(s, t)
    requires cfg.cacheSize > 0 && s.pools == map[Local(cfg.workers, Normal) := multiset{j}]
    ensures Reaches(cfg, more, Carrying(cfg, s, t, j, Body), ws)
  {
    hide *;
    LooksAlive(s, t);
    var s1 := Carrying(cfg, s, t, j, Filled(Global));
    CanPublish(cfg, s, t, j);
    more := TakeOne(cfg, schedule, s, t, j, ws);
    more := Extend(cfg, more, s1, NothingFound(cfg, t), Cached(cfg, s, t, j), ws);
    more := RunOne(cfg, more, s, t, j, ws);
  }

  lemma LooksAlive(s: State, t: Thread)
    requires Looks(s, t)
    ensures Alive(s, t) && t < |s.stack|
    ensures LookStep(s, t).t == t && !LookStep(s, t).AWait?
  {
  }

  lemma CanPublish(cfg: Config, s: State, t: Thread, j: Job)
    requires Alive(s, t) && cfg.workers > 0 && t <= cfg.workers
    requires s.pools == map[Local(cfg.workers, Normal) := multiset{j}]
    ensures !NothingFound(cfg, t).AWait?
    ensures Leads(cfg, Carrying(cfg, s, t, j, Filled(Global)), NothingFound(cfg, t), Cached(cfg, s, t, j))
  {
    PublishIs(cfg, s, t, j, NothingFound(cfg, t).victim);
    hide Carrying, Settle, Cached;
  }

  lemma TakeOne(cfg: Config, schedule: seq<Action>, s: State, t: Thread, j: Job, ws: set<Thread>)
    returns (more: seq<Action>)
    requires Reaches(cfg, schedule, s, ws) && cfg.workers > 0 && t <= cfg.workers && Looks(s, t) && t < |s.stack|
    requires cfg.cacheSize > 0 && s.pools == map[Local(cfg.workers, Normal) := multiset{j}]
    ensures Reaches(cfg, more, Carrying(cfg, s, t, j, Filled(Global)), ws)
  {
    hide *;
    LooksAlive(s, t);
    OnlyNormal(cfg, s, t, j);
    CanLook(cfg, s, t);
    var s1 := Push(s, t, Frame(Iterate, multiset{}));
    var s2 := WithCode(s1, t, Fill(Global, Normal));
    CodeTwice(s1, t, Fill(Global, High), Fill(Global, Normal));
    TakeIs(cfg, s, t, j);
    CanTake(cfg, s, t, j);
    CarryOn(cfg, s, t, j, Fill(Global, Low), Filled(Global));
    more := Extend(cfg, schedule, s, LookStep(s, t), s1, ws);
    more := ReachGlobal(cfg, more, s1, t, ws);
    more := EmptyTake(cfg, more, WithCode(s1, t, Fill(Global, High)), t, ws);
    more := Extend(cfg, more, s2, ATake(t, multiset{j}), Carrying(cfg, s, t, j, Fill(Global, Low)), ws);
    more := EmptyTake(cfg, more, Carrying(cfg, s, t, j, Fill(Global, Low)), t, ws);
  }

  /** The global queue has jobs of normal priority only. */
  lemma OnlyNormal(cfg: Config, s: State, t: Thread, j: Job)
    requires Alive(s, t) && cfg.workers > 0 && t <= cfg.workers
    requires s.pools == map[Local(cfg.workers, Normal) := multiset{j}]
    ensures var s1 := Push(s, t, Frame(Iterate, multiset{}));
            && Alive(s1, t)
            && Bare(cfg, s1, t, if t < cfg.workers then Own else Victim(0)) && At(s1, Cache(t)) == multiset{}
            && SourcePlace(cfg, t, Global, High) !in WithCode(s1, t, Fill(Global, High)).pools
            && SourcePlace(cfg, t, Global, Low) !in Carrying(cfg, s, t, j, Fill(Global, Low)).pools
            && AfterFill(Global, High) == Fill(Global, Normal) && AfterFill(Global, Low) == Filled(Global)
  {
    assert multiset{j} - multiset{j} == multiset{};
  }

  lemma CanTake(cfg: Config, s: State, t: Thread, j: Job)
    requires Alive(s, t) && cfg.cacheSize > 0 && s.pools == map[Local(cfg.workers, Normal) := multiset{j}]
    ensures var s2 := WithCode(Push(s, t, Frame(Iterate, multiset{})), t, Fill(Global, Normal));
            Leads(cfg, s2, ATake(t, multiset{j}), Carrying(cfg, s, t, j, Fill(Global, Low)))
  {
    TakeIs(cfg, s, t, j);
    var s2 := WithCode(Push(s, t, Frame(Iterate, multiset{})), t, Fill(Global, Normal));
    assert At(s2, Local(cfg.workers, Normal)) == multiset{j};
    assert |multiset{j}| == 1;
    hide Carrying;
  }

  lemma TakeIs(cfg: Config, s: State, t: Thread, j: Job)
    requires Alive(s, t) && s.pools == map[Local(cfg.workers, Normal) := multiset{j}]
    ensures var s2 := WithCode(Push(s, t, Frame(Iterate, multiset{})), t, Fill(Global, Normal));
            && Alive(s2, t) && Top(s2, t) == Frame(Fill(Global, Normal), multiset{})
            && multiset{j} <= At(s2, Local(cfg.workers, Normal)) && |multiset{j}| == 1
            && Grab(s2, t, Local(cfg.workers, Normal), multiset{j}, Fill(Global, Low))
            == Carrying(cfg, s, t, j, Fill(Global, Low))
  {
    var s2 := WithCode(Push(s, t, Frame(Iterate, multiset{})), t, Fill(Global, Normal));
    var next := Grab(s2, t, Local(cfg.workers, Normal), multiset{j}, Fill(Global, Low));
    assert multiset{} + multiset{j} == multiset{j};
    assert next.stack[t] == s.stack[t] + [Frame(Fill(Global, Low), multiset{j})];
    assert next.stack == Carrying(cfg, s, t, j, Fill(Global, Low)).stack;
  }

  lemma CarryOn(cfg: Config, s: State, t: Thread, j: Job, first: Code, second: Code)
    requires t < |s.stack|
    ensures var s1 := Carrying(cfg, s, t, j, first);
            && Alive(s1, t) && Top(s1, t) == Frame(first, multiset{j}) && |multiset{j}| == 1
            && WithCode(s1, t, second) == Carrying(cfg, s, t, j, second)
  {
    var s1 := Carrying(cfg, s, t, j, first);
    hide At;
    assert WithCode(s1, t, second).stack[t] == Carrying(cfg, s, t, j, second).stack[t];
    assert WithCode(s1, t, second).stack == Carrying(cfg, s, t, j, second).stack;
  }

  lemma PublishIs(cfg: Config, s: State, t: Thread, j: Job, victim: Option<nat>)
    requires Alive(s, t) && s.pools == map[Local(cfg.workers, Normal) := multiset{j}]
    ensures var s1 := Carrying(cfg, s, t, j, Filled(Global));
            && Alive(s1, t) && Top(s1, t) == Frame(Filled(Global), multiset{j})
            && Settle(s1, t, victim) == Cached(cfg, s, t, j)
  {
    var s1 := Carrying(cfg, s, t, j, Filled(Global));
    var next := Settle(s1, t, victim);
    assert At(s1, Cache(t)) + multiset{j} == multiset{j};
    assert next.stack[t] == s.stack[t];
    assert next.stack == s.stack;
  }

  lemma RunOne(cfg: Config, schedule: seq<Action>, s: State, t: Thread, j: Job, ws: set<Thread>)
    returns (more: seq<Action>)
    requires Reaches(cfg, schedule, Cached(cfg, s, t, j), ws) && Looks(s, t) && t < |s.stack|
    requires s.pools == map[Local(cfg.workers, Normal) := multiset{j}]
    ensures Reaches(cfg, more, Carrying(cfg, s, t, j, Body), ws)
  {
    hide *;
    StillLooks(cfg, s, t, j);
    LooksAlive(s, t);
    LooksAlive(Cached(cfg, s, t, j), t);
    var s1 := Cached(cfg, s, t, j);
    var s2 := Push(s1, t, Frame(Iterate, multiset{}));
    CanLook(cfg, s1, t);
    CanRun(cfg, s, t, j);
    more := Extend(cfg, schedule, s1, LookStep(s1, t), s2, ws);
    more := Extend(cfg, more, s2, ARunCached(t, j), Carrying(cfg, s, t, j, Body), ws);
  }

  lemma StillLooks(cfg: Config, s: State, t: Thread, j: Job)
    requires Looks(s, t)
    ensures Looks(Cached(cfg, s, t, j), t)
  {
  }

  lemma CanRun(cfg: Config, s: State, t: Thread, j: Job)
    requires Alive(s, t) && s.pools == map[Local(cfg.workers, Normal) := multiset{j}]
    ensures var s1 := Cached(cfg, s, t, j);
            && Alive(s1, t)
            && Leads(cfg, Push(s1, t, Frame(Iterate, multiset{})), ARunCached(t, j), Carrying(cfg, s, t, j, Body))
  {
    RunIs(cfg, s, t, j);
    hide Carrying, Grab;
  }

  lemma RunIs(cfg: Config, s: State, t: Thread, j: Job)
    requires Alive(s, t) && s.pools == map[Local(cfg.workers, Normal) := multiset{j}]
    ensures var s2 := Push(Cached(cfg, s, t, j), t, Frame(Iterate, multiset{}));
            && Alive(s2, t) && Top(s2, t) == Frame(Iterate, multiset{}) && j in At(s2, Cache(t))
            && Grab(s2, t, Cache(t), multiset{j}, Body) == Carrying(cfg, s, t, j, Body)
  {
    var s2 := Push(Cached(cfg, s, t, j), t, Frame(Iterate, multiset{}));
    var next := Grab(s2, t, Cache(t), multiset{j}, Body);
    var pools := Carrying(cfg, s, t, j, Body).pools;
    assert Cache(t) !in pools;
    assert At(s2, Cache(t)) == multiset{j} && multiset{j} - multiset{j} == multiset{};
    assert multiset{} + multiset{j} == multiset{j};
    assert next.pools == pools[Cache(t) := multiset{j}] - {Cache(t)} == pools;
    assert next.stack[t] == Carrying(cfg, s, t, j, Body).stack[t];
    assert next.stack == Carrying(cfg, s, t, j, Body).stack;
  }

  /** A waiting loop looks for work in vain and arms the flag. */
  lemma LookAndArm(cfg: Config, schedule: seq<Action>, s: State, t: Thread, c: Counter, ws: set<Thread>)
    returns (more: seq<Action>)
    requires Reaches(cfg, schedule, s, ws) && Alive(s, t) && Top(s, t) == Frame(Waiting(c, Check), multiset{})
    requires Count(s, c) > 0 && At(s, Cache(t)) == multiset{} && cfg.workers > 0 && t <= cfg.workers
    requires NoWork(cfg, s, t)
    ensures Reaches(cfg, more, WithCode(s, t, Waiting(c, Recheck)).(wake := true), ws)
  {
    hide *;
    CodeTwice(s, t, Waiting(c, Arm), Waiting(c, Recheck));
    CanArm(cfg, s, t, c);
    more := FruitlessLook(cfg, schedule, s, t, c, ws);
    more := Extend(cfg, more, WithCode(s, t, Waiting(c, Arm)), AArm(t),
                   WithCode(s, t, Waiting(c, Recheck)).(wake := true), ws);
  }

  lemma CanArm(cfg: Config, s: State, t: Thread, c: Counter)
    requires Alive(s, t)
    ensures Leads(cfg, WithCode(s, t, Waiting(c, Arm)), AArm(t), WithCode(s, t, Waiting(c, Recheck)).(wake := true))
  {
    CodeTwice(s, t, Waiting(c, Arm), Waiting(c, Recheck));
    hide WithCode;
  }

  /** Thread `t` decides to sleep: it has armed the flag, and its counter is not yet zero. */
  function Deciding(s: State, t: Thread, c: Counter): State
    requires Alive(s, t)
  {
    WithCode(s, t, Waiting(c, Enter)).(wake := true)
  }

  lemma DecideToSleep(cfg: Config, schedule: seq<Action>, s: State, t: Thread, c: Counter, ws: set<Thread>)
    returns (more: seq<Action>)
    requires Reaches(cfg, schedule, s, ws) && Alive(s, t) && Top(s, t) == Frame(Waiting(c, Check), multiset{})
    requires Count(s, c) > 0 && At(s, Cache(t)) == multiset{} && cfg.workers > 0 && t <= cfg.workers
    requires NoWork(cfg, s, t)
    ensures Reaches(cfg, more, Deciding(s, t, c), ws)
  {
    hide *;
    CanRecheck(cfg, s, t, c);
    more := LookAndArm(cfg, schedule, s, t, c, ws);
    more := Extend(cfg, more, WithCode(s, t, Waiting(c, Recheck)).(wake := true), ARecheck(t), Deciding(s, t, c), ws);
  }

  lemma CanRecheck(cfg: Config, s: State, t: Thread, c: Counter)
    requires Alive(s, t) && Count(s, c) > 0
    ensures Leads(cfg, WithCode(s, t, Waiting(c, Recheck)).(wake := true), ARecheck(t), Deciding(s, t, c))
  {
    CodeTwice(s, t, Waiting(c, Recheck), Waiting(c, Enter));
    hide WithCode;
  }

  /** And sleeps, since the flag is set. */
  lemma FallAsleep(cfg: Config, schedule: seq<Action>, s: State, t: Thread, c: Counter, ws: set<Thread>)
    returns (more: seq<Action>)
    requires Reaches(cfg, schedule, s, ws) && Alive(s, t) && Top(s, t).code == Waiting(c, Enter) && s.wake
    ensures Reaches(cfg, more, WithCode(s, t, Waiting(c, Asleep)), ws)
  {
    CanEnter(cfg, s, t, c);
    hide Reaches, Leads;
    more := Extend(cfg, schedule, s, AEnterWait(t), WithCode(s, t, Waiting(c, Asleep)), ws);
  }

  lemma CanEnter(cfg: Config, s: State, t: Thread, c: Counter)
    requires Alive(s, t) && Top(s, t).code == Waiting(c, Enter) && s.wake
    ensures Leads(cfg, s, AEnterWait(t), WithCode(s, t, Waiting(c, Asleep)))
  {
  }

  /** A call of wait_for_counter. */
  lemma CallWait(cfg: Config, schedule: seq<Action>, s: State, t: Thread, c: Counter, ws: set<Thread>)
    returns (more: seq<Action>)
    requires Reaches(cfg, schedule, s, ws) && Alive(s, t) && MayCall(cfg, t, Top(s, t)) && t in ws
    ensures Reaches(cfg, more, Push(s, t, Frame(Waiting(c, Check), multiset{})), ws)
  {
    CanWait(cfg, s, t, c);
    hide Reaches, Leads;
    more := Extend(cfg, schedule, s, AWait(t, c), Push(s, t, Frame(Waiting(c, Check), multiset{})), ws);
  }

  lemma CanWait(cfg: Config, s: State, t: Thread, c: Counter)
    requires Alive(s, t) && MayCall(cfg, t, Top(s, t))
    ensures Leads(cfg, s, AWait(t, c), Push(s, t, Frame(Waiting(c, Check), multiset{})))
  {
  }

  lemma PushThenCode(s: State, t: Thread, first: Code, second: Code)
    requires Alive(s, t)
    ensures var s1 := Push(s, t, Frame(first, multiset{}));
            && Alive(s1, t) && Top(s1, t) == Frame(first, multiset{})
            && WithCode(s1, t, second) == Push(s, t, Frame(second, multiset{}))
  {
    var s1 := Push(s, t, Frame(first, multiset{}));
    assert WithCode(s1, t, second).stack[t] == Push(s, t, Frame(second, multiset{})).stack[t];
    assert WithCode(s1, t, second).stack == Push(s, t, Frame(second, multiset{})).stack;
  }

  ghost predicate NobodySleeps(s: State) {
    forall u :: 0 <= u < |s.stack| ==> Woken(s.stack[u]) == s.stack[u]
  }

  /** The state after thread `t`, running `j` for the code below it, has finished it and has signalled. */
  function Signalled(s: State, t: Thread, j: Job): State
    requires Alive(s, t) && j in s.jobs
  {
    s.(stack := s.stack[t := s.stack[t][..|s.stack[t]| - 1]],
    pools := SetPool(s.pools, Done, At(s, Done) + multiset{j}),
    jobs := s.jobs[j := s.jobs[j].(phase := Finalized)],
    count := Lowered(s, s.jobs[j].counter),
    wake := false)
  }

  lemma FinishAndSignal(cfg: Config, schedule: seq<Action>, s: State, t: Thread, j: Job, ws: set<Thread>)
    returns (more: seq<Action>)
    requires Reaches(cfg, schedule, s, ws) && Alive(s, t) && j in s.jobs && s.jobs[j].bound
    requires Top(s, t) == Frame(Body, multiset{j}) && NobodySleeps(Signalled(s, t, j))
    ensures Reaches(cfg, more, Signalled(s, t, j), ws)
  {
    hide *;
    CanFinalize(cfg, s, t, j);
    more := Extend(cfg, schedule, s, AFinalize(t, j), Finished(s, t, j), ws);
    var c, s1 := s.jobs[j].counter, Finished(s, t, j);
    SignalIs(s, t, j);
    var s2 := WithCode(s1, t, NotifyWake(c)).(wake := false);
    CanSignal(cfg, s1, t, c);
    more := Extend(cfg, more, s1, AClearWake(t), s2, ws);
    more := Extend(cfg, more, s2, ANotifyWake(t), Notify(s2, t), ws);
  }

  lemma CanFinalize(cfg: Config, s: State, t: Thread, j: Job)
    requires Alive(s, t) && j in s.jobs && s.jobs[j].bound && Top(s, t) == Frame(Body, multiset{j})
    ensures Leads(cfg, s, AFinalize(t, j), Finished(s, t, j))
  {
  }

  lemma CanSignal(cfg: Config, s1: State, t: Thread, c: Option<Counter>)
    requires Alive(s1, t) && Top(s1, t) == Frame(ClearWake(c), multiset{})
    ensures var s2 := WithCode(s1, t, NotifyWake(c)).(wake := false);
            && Leads(cfg, s1, AClearWake(t), s2)
            && (Alive(s2, t) && Top(s2, t).code.NotifyWake? ==> Leads(cfg, s2, ANotifyWake(t), Notify(s2, t)))
  {
    hide Notify;
  }

  lemma SignalIs(s: State, t: Thread, j: Job)
    requires Alive(s, t) && j in s.jobs && Top(s, t) == Frame(Body, multiset{j}) && NobodySleeps(Signalled(s, t, j))
    ensures var c := s.jobs[j].counter;
            var s1 := Finished(s, t, j);
            var s2 := WithCode(s1, t, NotifyWake(c)).(wake := false);
            && Alive(s1, t) && Top(s1, t) == Frame(ClearWake(c), multiset{})
            && Alive(s2, t) && Top(s2, t) == Frame(NotifyWake(c), multiset{})
            && Notify(s2, t) == Signalled(s, t, j)
  {
    var s2 := WithCode(Finished(s, t, j), t, NotifyWake(s.jobs[j].counter)).(wake := false);
    assert Pop(s2, t).stack[t] == Signalled(s, t, j).stack[t];
    assert Pop(s2, t).stack == Signalled(s, t, j).stack;
    hide At, SetPool, Finished;
    assert Notify(s2, t).stack == Signalled(s, t, j).stack;
  }
}

/**
 * The work-stealing job scheduler as a machine of atomic steps.
 *
 * Threads 0 .. workers-1 are the pool's workers; thread `workers` is the one
 * outside thread, which uses the scheduler's global context.  A thread is a call
 * stack of frames; every frame says which piece of scheduler code it is in the
 * middle of and which job handles it holds in its hands.  One `Action` is one
 * atomic access to shared state (a queue operation, a counter or flag access) or
 * a purely thread-local move between two of them.
 */
module Scheduler {
  import opened Wrappers
  import opened JobTypes

  type Thread = nat

  datatype Config = Config(workers: nat, cacheSize: nat)

  /** Where a batch of handles can be fetched from. */
  datatype Source = Own | Victim(worker: nat) | Global

  /** The point a `wait_for_counter` call has reached. */
  datatype WaitPoint = Check | Arm | Recheck | Disarm | Enter | Asleep

  datatype Code =
    | Outside                                  // worker loop, or application code outside any job
    | Body                                     // a job's own code is running
    | Raise(counter: Counter, priority: Priority)   // dispatch: counter not yet raised
    | Submit(priority: Priority, resumed: bool)     // dispatch: handles not yet enqueued
    | ClearWake(finished: Option<Counter>)     // signal_wake: flag not yet cleared
    | NotifyWake(finished: Option<Counter>)    // signal_wake: waiters not yet notified
    | Iterate                                  // start of an iteration
    | MigrateTake(priority: Priority)
    | MigratePut(priority: Priority)
    | Fill(source: Source, priority: Priority) // about to dequeue from this source
    | Filled(source: Source)                   // all three priorities tried
    | Waiting(counter: Counter, point: WaitPoint)

  datatype Frame = Frame(code: Code, held: multiset<Job>)

  datatype Place =
    | Local(context: nat, priority: Priority)
    | Stealable(context: nat, priority: Priority)
    | Cache(context: nat)
    | Hand(thread: Thread, depth: nat)
    | Done

  /** Pending: given its counter, but the counter is not yet raised. */
  datatype Phase = Pending | Active | Finalized

  /** The part of a job's promise the scheduler uses. */
  datatype Promise = Promise(counter: Option<Counter>, bound: bool, phase: Phase)

  datatype State = State(
    stack: seq<seq<Frame>>,
    pools: map<Place, multiset<Job>>,
    jobs: map<Job, Promise>,
    count: map<Counter, int>,
    wake: bool)

  datatype Action =
    | ADispatch(t: Thread, batch: set<Job>, priority: Priority, counter: Option<Counter>)
    | ARaise(t: Thread)
    | ASubmit(t: Thread)
    | ASuspend(t: Thread)
    | AFinalize(t: Thread, job: Job)
    | AClearWake(t: Thread)
    | ANotifyWake(t: Thread)
    | AIterate(t: Thread)
    | AWait(t: Thread, awaited: Counter)
    | AAwaitChild(t: Thread, job: Job)
    | ACheck(t: Thread)
    | ARunCached(t: Thread, job: Job)
    | AStartFill(t: Thread, migrate: bool)
    | AMigrateTake(t: Thread, taken: multiset<Job>)
    | AMigratePut(t: Thread)
    | ATake(t: Thread, taken: multiset<Job>)
    | ASettle(t: Thread, victim: Option<nat>)
    | AArm(t: Thread)
    | ARecheck(t: Thread)
    | ADisarm(t: Thread)
    | AEnterWait(t: Thread)
    | ASpuriousWake(t: Thread)

  // ---------------------------------------------------------------- reading a state

  function At(s: State, p: Place): multiset<Job> {
    match p
    case Hand(t, d) => if t < |s.stack| && d < |s.stack[t]| then s.stack[t][d].held else multiset{}
    case _ => if p in s.pools then s.pools[p] else multiset{}
  }

  function Count(s: State, c: Counter): int {
    if c in s.count then s.count[c] else 0
  }

  predicate Alive(s: State, t: Thread) {
    t < |s.stack| && s.stack[t] != []
  }

  function Last(fs: seq<Frame>): Frame
    requires fs != []
  {
    fs[|fs| - 1]
  }

  function Top(s: State, t: Thread): Frame
    requires Alive(s, t)
  {
    Last(s.stack[t])
  }

  function TopPlace(s: State, t: Thread): Place
    requires Alive(s, t)
  {
    Hand(t, |s.stack[t]| - 1)
  }

  // ---------------------------------------------------------------- changing a state

  /** Pool `p` now holds `m`; an empty pool has no entry. */
  function SetPool(pools: map<Place, multiset<Job>>, p: Place, m: multiset<Job>): map<Place, multiset<Job>> {
    if m == multiset{} then pools - {p} else pools[p := m]
  }

  function WithTop(s: State, t: Thread, f: Frame): State
    requires Alive(s, t)
  {
    s.(stack := s.stack[t := s.stack[t][|s.stack[t]| - 1 := f]])
  }

  function WithCode(s: State, t: Thread, code: Code): State
    requires Alive(s, t)
  {
    WithTop(s, t, Top(s, t).(code := code))
  }

  function Push(s: State, t: Thread, f: Frame): State
    requires Alive(s, t)
  {
    s.(stack := s.stack[t := s.stack[t] + [f]])
  }

  function Pop(s: State, t: Thread): State
    requires Alive(s, t)
  {
    s.(stack := s.stack[t := s.stack[t][..|s.stack[t]| - 1]])
  }

  /** Thread `t` takes `taken` out of pool `p` into its own hands, and goes on with `code`. */
  function Grab(s: State, t: Thread, p: Place, taken: multiset<Job>, code: Code): State
    requires Alive(s, t)
  {
    var top := Top(s, t);
    WithTop(s, t, Frame(code, top.held + taken)).(pools := SetPool(s.pools, p, At(s, p) - taken))
  }

  /** Thread `t` puts everything it holds into pool `p`, and goes on with `code`. */
  function Release(s: State, t: Thread, p: Place, code: Code): State
    requires Alive(s, t)
  {
    var top := Top(s, t);
    WithTop(s, t, Frame(code, multiset{})).(pools := SetPool(s.pools, p, At(s, p) + top.held))
  }

  function SetPhase(jobs: map<Job, Promise>, batch: multiset<Job>, phase: Phase): map<Job, Promise> {
    map j | j in jobs :: if j in batch then jobs[j].(phase := phase) else jobs[j]
  }

  /** Every job of `batch` gets the promise. */
  function Enlist(jobs: map<Job, Promise>, batch: set<Job>, promise: Promise): map<Job, Promise> {
    jobs + map j | j in batch :: promise
  }

  /** A thread asleep on the flag goes back to testing it. */
  function Woken(fs: seq<Frame>): seq<Frame> {
    if fs != [] && Last(fs).code.Waiting? && Last(fs).code.point == Asleep
    then fs[|fs| - 1 := Last(fs).(code := Waiting(Last(fs).code.counter, Enter))]
    else fs
  }

  function NextPriority(p: Priority): Option<Priority> {
    match p
    case High => Some(Normal)
    case Normal => Some(Low)
    case Low => None
  }

  function SourcePlace(cfg: Config, t: Thread, source: Source, p: Priority): Place {
    match source
    case Own => Local(t, p)
    case Victim(v) => Stealable(v, p)
    case Global => Local(cfg.workers, p)
  }

  function AfterFill(source: Source, p: Priority): Code {
    match NextPriority(p)
    case Some(q) => Fill(source, q)
    case None => Filled(source)
  }

  function AfterMigrate(p: Priority): Code {
    match NextPriority(p)
    case Some(q) => MigrateTake(q)
    case None => Fill(Own, High)
  }

  /** May the code in frame `f` of thread `t` call the scheduler as application code does? */
  predicate MayCall(cfg: Config, t: Thread, f: Frame) {
    f.code.Body? || (f.code.Outside? && t == cfg.workers)
  }

  // ---------------------------------------------------------------- the steps

  /** When the step `a` can happen. */
  predicate Enabled(cfg: Config, s: State, a: Action) {
    && Alive(s, a.t)
    && var top := Top(s, a.t);
       match a
       case ADispatch(t, batch, _, _) => MayCall(cfg, t, top) && batch !! s.jobs.Keys
       case ARaise(_) => top.code.Raise?
       case ASubmit(_) => top.code.Submit?
       case ASuspend(_) => top.code.Body? && forall j :: j in top.held ==> j in s.jobs && s.jobs[j].bound
       case AFinalize(_, j) => top.code.Body? && top.held == multiset{j} && j in s.jobs
       case AClearWake(_) => top.code.ClearWake?
       case ANotifyWake(_) => top.code.NotifyWake?
       case AIterate(_) => top.code.Outside?
       case AWait(t, _) => MayCall(cfg, t, top)
       case AAwaitChild(_, j) => top.code.Body? && j !in s.jobs
       case ACheck(_) => top.code.Waiting? && top.code.point == Check
       case ARunCached(t, j) => top.code.Iterate? && j in At(s, Cache(t))
       case AStartFill(t, _) => top.code.Iterate? && At(s, Cache(t)) == multiset{}
       case AMigrateTake(t, taken) =>
         top.code.MigrateTake? && taken <= At(s, Local(t, top.code.priority)) && |taken| <= MOVE_COUNT
       case AMigratePut(_) => top.code.MigratePut?
       case ATake(t, taken) =>
         && top.code.Fill?
         && taken <= At(s, SourcePlace(cfg, t, top.code.source, top.code.priority))
         && |top.held| + |taken| <= cfg.cacheSize
       case ASettle(t, victim) =>
         && top.code.Filled?
         && (if victim.Some? then victim.value < cfg.workers && victim.value != t
             else cfg.workers == 0 || t < cfg.workers)
       case AArm(_) => top.code.Waiting? && top.code.point == Arm
       case ARecheck(_) => top.code.Waiting? && top.code.point == Recheck
       case ADisarm(_) => top.code.Waiting? && top.code.point == Disarm
       case AEnterWait(_) => top.code.Waiting? && top.code.point == Enter
       case ASpuriousWake(_) => top.code.Waiting? && top.code.point == Asleep
  }

  /** dispatch_jobs marks the handles and, when a counter is given, writes it into each promise. */
  function Dispatch(s: State, t: Thread, batch: set<Job>, p: Priority, c: Option<Counter>): State
    requires Alive(s, t)
  {
    var promise := Promise(c, true, if c.Some? then Pending else Active);
    var code := if c.Some? then Raise(c.value, p) else Submit(p, false);
    Push(s, t, Frame(code, multiset(batch))).(jobs := Enlist(s.jobs, batch, promise))
  }

  /** A job awaits a job never dispatched: the child runs in its place until it returns control. */
  function AwaitChild(s: State, t: Thread, j: Job): State
    requires Alive(s, t)
  {
    Push(s, t, Frame(Body, multiset({j}))).(jobs := Enlist(s.jobs, {j}, Promise(None, false, Active)))
  }

  function DoRaise(s: State, t: Thread): State
    requires Alive(s, t) && Top(s, t).code.Raise?
  {
    var top := Top(s, t);
    var c := top.code.counter;
    WithCode(s, t, Submit(top.code.priority, false)).(
    count := s.count[c := Count(s, c) + |top.held|],
    jobs := SetPhase(s.jobs, top.held, Active))
  }

  function DoSubmit(s: State, t: Thread): State
    requires Alive(s, t) && Top(s, t).code.Submit?
  {
    var code := Top(s, t).code;
    var s1 := Release(s, t, Local(t, code.priority), ClearWake(None));
    if code.resumed then s1 else Pop(s1, t)
  }

  /** The counter of a finished job goes down by one, if it has one. */
  function Lowered(s: State, c: Option<Counter>): map<Counter, int> {
    if c.Some? then s.count[c.value := Count(s, c.value) - 1] else s.count
  }

  /** FinalizeJob has lowered the counter; its frame still has to signal. */
  function Finished(s: State, t: Thread, j: Job): State
    requires Alive(s, t) && j in s.jobs
  {
    Release(s, t, Done, ClearWake(s.jobs[j].counter)).(
    jobs := s.jobs[j := s.jobs[j].(phase := Finalized)],
    count := Lowered(s, s.jobs[j].counter))
  }

  /** FinalizeJob: lower the counter of the promise, then signal if the job has a scheduler. */
  function Finalize(s: State, t: Thread, j: Job): State
    requires Alive(s, t) && j in s.jobs
  {
    if s.jobs[j].bound then Finished(s, t, j) else Pop(Finished(s, t, j), t)
  }

  function Notify(s: State, t: Thread): State
    requires Alive(s, t)
  {
    var s1 := Pop(s, t);
    s1.(stack := seq(|s1.stack|, u requires 0 <= u < |s1.stack| => Woken(s1.stack[u])))
  }

  /** The iteration found no work: the frame returns, and a waiter below goes on to arm the flag. */
  function ReportEmpty(s: State, t: Thread): State
    requires Alive(s, t)
  {
    var s1 := Pop(s, t);
    if Alive(s1, t) && Top(s1, t).code.Waiting? && Top(s1, t).code.point == Check
    then WithCode(s1, t, Waiting(Top(s1, t).code.counter, Arm))
    else s1
  }

  /** The fetched batch becomes the cache: it overwrites the slots, whatever was cached before. */
  function Publish(s: State, t: Thread): State
    requires Alive(s, t)
  {
    Pop(s, t).(pools := SetPool(s.pools, Cache(t), Top(s, t).held))
  }

  /** End of one source: publish what was fetched as the new cache, or try the next source. */
  function Settle(s: State, t: Thread, victim: Option<nat>): State
    requires Alive(s, t) && Top(s, t).code.Filled?
  {
    var top := Top(s, t);
    if top.held != multiset{} then Publish(s, t)
    else match top.code.source
         case Own => WithCode(s, t, if victim.Some? then Fill(Victim(victim.value), High) else Fill(Global, High))
         case Victim(_) => WithCode(s, t, Fill(Global, High))
         case Global => ReportEmpty(s, t)
  }

  function Apply(cfg: Config, s: State, a: Action): State
    requires Enabled(cfg, s, a)
  {
    var top := Top(s, a.t);
    match a
    case ADispatch(t, batch, p, c) => Dispatch(s, t, batch, p, c)
    case ARaise(t) => DoRaise(s, t)
    case ASubmit(t) => DoSubmit(s, t)
    case ASuspend(t) => WithCode(s, t, Submit(Normal, true))
    case AFinalize(t, j) => Finalize(s, t, j)
    case AClearWake(t) => WithCode(s, t, NotifyWake(top.code.finished)).(wake := false)
    case ANotifyWake(t) => Notify(s, t)
    case AIterate(t) => Push(s, t, Frame(Iterate, multiset{}))
    case AWait(t, c) => Push(s, t, Frame(Waiting(c, Check), multiset{}))
    case AAwaitChild(t, j) => AwaitChild(s, t, j)
    case ACheck(t) =>
      if Count(s, top.code.counter) > 0 then Push(s, t, Frame(Iterate, multiset{})) else Pop(s, t)
    case ARunCached(t, j) => Grab(s, t, Cache(t), multiset{j}, Body)
    case AStartFill(t, migrate) =>
      WithCode(s, t, if t >= cfg.workers then Filled(Own)
                     else if migrate then MigrateTake(High) else Fill(Own, High))
    case AMigrateTake(t, taken) =>
      Grab(s, t, Local(t, top.code.priority), taken, MigratePut(top.code.priority))
    case AMigratePut(t) =>
      Release(s, t, Stealable(t, top.code.priority), AfterMigrate(top.code.priority))
    case ATake(t, taken) =>
      Grab(s, t, SourcePlace(cfg, t, top.code.source, top.code.priority), taken,
           AfterFill(top.code.source, top.code.priority))
    case ASettle(t, victim) => Settle(s, t, victim)
    case AArm(t) => WithCode(s, t, Waiting(top.code.counter, Recheck)).(wake := true)
    case ARecheck(t) =>
      WithCode(s, t, Waiting(top.code.counter, if Count(s, top.code.counter) > 0 then Enter else Disarm))
    case ADisarm(t) => WithCode(s, t, Waiting(top.code.counter, Check)).(wake := false)
    case AEnterWait(t) => WithCode(s, t, Waiting(top.code.counter, if s.wake then Asleep else Check))
    case ASpuriousWake(t) => WithCode(s, t, Waiting(top.code.counter, Enter))
  }

  function Initial(cfg: Config): State {
    State(seq(cfg.workers + 1, _ => [Frame(Outside, multiset{})]), map[], map[], map[], false)
  }

  /** The state after a schedule, or None when some action is not enabled where it stands. */
  function Execute(cfg: Config, schedule: seq<Action>): Option<State> {
    if schedule == [] then Some(Initial(cfg))
    else
      match Execute(cfg, schedule[..|schedule| - 1])
      case None => None
      case Some(s) =>
        var a := schedule[|schedule| - 1];
        if Enabled(cfg, s, a) then Some(Apply(cfg, s, a)) else None
  }

  /** A run and a continuation end with the last step of the continuation. */
  lemma LastStep(cfg: Config, schedule: seq<Action>, more: seq<Action>)
    requires more != [] && Execute(cfg, schedule + more).Some?
    ensures var before := Execute(cfg, schedule + more[..|more| - 1]);
            && before.Some? && Enabled(cfg, before.value, more[|more| - 1])
            && Execute(cfg, schedule + more) == Some(Apply(cfg, before.value, more[|more| - 1]))
  {
    assert (schedule + more)[..|schedule + more| - 1] == schedule + more[..|more| - 1];
    hide Enabled, Apply;
  }

  // ---------------------------------------------------------------- what steps leave alone

  /** No promise, no counter and not the flag. */
  predicate SameRest(s: State, next: State) {
    next.jobs == s.jobs && next.count == s.count && next.wake == s.wake
  }

  lemma SettleKeepsRest(s: State, t: Thread, victim: Option<nat>)
    requires Alive(s, t) && Top(s, t).code.Filled?
    ensures SameRest(s, Settle(s, t, victim))
  {
    hide At, SetPool;
  }

  lemma SubmitKeepsRest(s: State, t: Thread)
    requires Alive(s, t) && Top(s, t).code.Submit?
    ensures SameRest(s, DoSubmit(s, t))
  {
    hide At, SetPool;
  }
}

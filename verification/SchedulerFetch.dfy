/** What an iteration looks at before it reports an empty queue, when no dequeue misses a job. */
module SchedulerFetch {
  import opened Wrappers
  import opened Basics
  import opened JobTypes
  import opened Scheduler
  import opened SchedulerPlaces
  import opened SchedulerRuns
  import opened SchedulerWake
  import opened SchedulerCache
  import opened SchedulerMoves
  import opened SchedulerNested
  import opened SchedulerEffects

  /** Pool `p` was empty at some moment of the run, from its state `from` on. */
  ghost predicate WasEmpty(cfg: Config, schedule: seq<Action>, from: nat, p: Place) {
    exists k :: from <= k <= |schedule| && EmptyAt(cfg, schedule[..k], p)
  }

  ghost predicate EmptyAt(cfg: Config, schedule: seq<Action>, p: Place) {
    Execute(cfg, schedule).Some? && At(Execute(cfg, schedule).value, p) == multiset{}
  }

  /** Where thread `t` last began to fetch. */
  function LastStart(schedule: seq<Action>, t: Thread): nat {
    if schedule == [] then 0
    else
      var before, a := schedule[..|schedule| - 1], schedule[|schedule| - 1];
      if a.AStartFill? && a.t == t then |before| else LastStart(before, t)
  }

  /** The choice of a victim in the fetch that thread `t` last began: none yet, no victim, or a worker. */
  function Chosen(schedule: seq<Action>, t: Thread): Option<Option<nat>> {
    if schedule == [] then None
    else
      var before, a := schedule[..|schedule| - 1], schedule[|schedule| - 1];
      if a.t != t then Chosen(before, t)
      else if a.AStartFill? then None
      else if a.ASettle? && Chosen(before, t) == None then Some(a.victim)
      else Chosen(before, t)
  }

  /** The pool has been found empty in this fetch, or the batch is full. */
  ghost predicate Done1(cfg: Config, schedule: seq<Action>, t: Thread, held: multiset<Job>, p: Place) {
    |held| == cfg.cacheSize || WasEmpty(cfg, schedule, LastStart(schedule, t), p)
  }

  /** Priorities come High, Normal, Low. */
  predicate Earlier(q: Priority, p: Priority) {
    (q.High? && (p.Normal? || p.Low?)) || (q.Normal? && p.Low?)
  }

  ghost predicate OwnSeen(cfg: Config, schedule: seq<Action>, t: Thread) {
    t < cfg.workers ==> forall q: Priority :: WasEmpty(cfg, schedule, LastStart(schedule, t), Local(t, q))
  }

  ghost predicate VictimSeen(cfg: Config, schedule: seq<Action>, t: Thread) {
    match Chosen(schedule, t)
    case Some(Some(v)) => v < cfg.workers && v != t
                          && forall q: Priority :: WasEmpty(cfg, schedule, LastStart(schedule, t), Stealable(v, q))
    case Some(None) => cfg.workers == 0 || t < cfg.workers
    case None => false
  }

  /** What thread `t` has seen when its top frame is `f`. */
  ghost predicate Seen(cfg: Config, schedule: seq<Action>, t: Thread, f: Frame) {
    match f.code
    case Fill(Own, p) =>
      && t < cfg.workers && Chosen(schedule, t) == None
      && forall q: Priority :: Earlier(q, p) ==> Done1(cfg, schedule, t, f.held, Local(t, q))
    case Filled(Own) =>
      && Chosen(schedule, t) == None
      && (t < cfg.workers ==> forall q: Priority :: Done1(cfg, schedule, t, f.held, Local(t, q)))
      && (t >= cfg.workers ==> f.held == multiset{})
    case Fill(Victim(v), p) =>
      && Chosen(schedule, t) == Some(Some(v)) && v < cfg.workers && v != t && OwnSeen(cfg, schedule, t)
      && forall q: Priority :: Earlier(q, p) ==> Done1(cfg, schedule, t, f.held, Stealable(v, q))
    case Filled(Victim(v)) =>
      && Chosen(schedule, t) == Some(Some(v)) && v < cfg.workers && v != t && OwnSeen(cfg, schedule, t)
      && forall q: Priority :: Done1(cfg, schedule, t, f.held, Stealable(v, q))
    case Fill(Global, p) =>
      && OwnSeen(cfg, schedule, t) && VictimSeen(cfg, schedule, t)
      && forall q: Priority :: Earlier(q, p) ==> Done1(cfg, schedule, t, f.held, Local(cfg.workers, q))
    case Filled(Global) =>
      && OwnSeen(cfg, schedule, t) && VictimSeen(cfg, schedule, t)
      && forall q: Priority :: Done1(cfg, schedule, t, f.held, Local(cfg.workers, q))
    case MigrateTake(_) => t < cfg.workers && Chosen(schedule, t) == None && f.held == multiset{}
    case MigratePut(_) => t < cfg.workers && Chosen(schedule, t) == None
    case _ => true
  }

  // ---------------------------------------------------------------- what lasts

  lemma EmptyLasts(cfg: Config, schedule: seq<Action>, a: Action, from: nat, p: Place)
    requires WasEmpty(cfg, schedule, from, p)
    ensures WasEmpty(cfg, schedule + [a], from, p)
  {
    hide EmptyAt;
    var k :| from <= k <= |schedule| && EmptyAt(cfg, schedule[..k], p);
    assert (schedule + [a])[..k] == schedule[..k];
  }

  /** A step that does not begin a fetch of thread `t`. */
  predicate Continues(a: Action, t: Thread) {
    !(a.AStartFill? && a.t == t)
  }

  lemma StartStays(schedule: seq<Action>, a: Action, t: Thread)
    requires Continues(a, t)
    ensures LastStart(schedule + [a], t) == LastStart(schedule, t)
  {
    assert (schedule + [a])[..|schedule|] == schedule;
  }

  lemma ChoiceStays(schedule: seq<Action>, a: Action, t: Thread)
    requires Continues(a, t) && (a.t != t || !a.ASettle? || Chosen(schedule, t) != None)
    ensures Chosen(schedule + [a], t) == Chosen(schedule, t)
  {
    assert (schedule + [a])[..|schedule|] == schedule;
  }

  lemma DoneLasts(cfg: Config, schedule: seq<Action>, a: Action, t: Thread, held: multiset<Job>, p: Place)
    requires Done1(cfg, schedule, t, held, p) && Continues(a, t)
    ensures Done1(cfg, schedule + [a], t, held, p)
  {
    StartStays(schedule, a, t);
    hide WasEmpty, LastStart;
    if |held| != cfg.cacheSize {
      EmptyLasts(cfg, schedule, a, LastStart(schedule, t), p);
    }
  }

  lemma OwnLasts(cfg: Config, schedule: seq<Action>, a: Action, t: Thread)
    requires OwnSeen(cfg, schedule, t) && Continues(a, t)
    ensures OwnSeen(cfg, schedule + [a], t)
  {
    StartStays(schedule, a, t);
    hide WasEmpty, LastStart;
    if t < cfg.workers {
      forall q: Priority ensures WasEmpty(cfg, schedule + [a], LastStart(schedule, t), Local(t, q)) {
        EmptyLasts(cfg, schedule, a, LastStart(schedule, t), Local(t, q));
      }
    }
  }

  lemma VictimLasts(cfg: Config, schedule: seq<Action>, a: Action, t: Thread)
    requires VictimSeen(cfg, schedule, t) && Continues(a, t)
    ensures VictimSeen(cfg, schedule + [a], t)
  {
    StartStays(schedule, a, t);
    ChoiceStays(schedule, a, t);
    hide WasEmpty, LastStart, Chosen;
    match Chosen(schedule, t) {
      case Some(Some(v)) =>
        forall q: Priority ensures WasEmpty(cfg, schedule + [a], LastStart(schedule, t), Stealable(v, q)) {
          EmptyLasts(cfg, schedule, a, LastStart(schedule, t), Stealable(v, q));
        }
      case _ =>
    }
  }

  /** What has been seen stays seen while the frame stays as it is. */
  lemma SeenLasts(cfg: Config, schedule: seq<Action>, a: Action, t: Thread, f: Frame)
    requires Seen(cfg, schedule, t, f) && a.t != t
    ensures Seen(cfg, schedule + [a], t, f)
  {
    ChoiceStays(schedule, a, t);
    hide LastStart, Chosen, Done1, OwnSeen, VictimSeen;
    if f.code.Fill? || f.code.Filled? {
      if !f.code.source.Own? { OwnLasts(cfg, schedule, a, t); }
      if f.code.source.Global? { VictimLasts(cfg, schedule, a, t); }
    }
    forall p: Place | Done1(cfg, schedule, t, f.held, p) ensures Done1(cfg, schedule + [a], t, f.held, p) {
      DoneLasts(cfg, schedule, a, t, f.held, p);
    }
  }

  // ---------------------------------------------------------------- the steps of a fetch

  lemma EmptyNow(cfg: Config, schedule: seq<Action>, from: nat, p: Place)
    requires EmptyAt(cfg, schedule, p) && from <= |schedule|
    ensures WasEmpty(cfg, schedule, from, p)
  {
    assert schedule[..|schedule|] == schedule;
    hide EmptyAt;
  }

  lemma {:induction false} StartIsBefore(schedule: seq<Action>, t: Thread)
    ensures LastStart(schedule, t) <= |schedule|
    decreases |schedule|
  {
    if schedule != [] { StartIsBefore(schedule[..|schedule| - 1], t); }
  }

  /** A thread begins to fetch. */
  lemma StartSees(cfg: Config, schedule: seq<Action>, t: Thread, migrate: bool)
    ensures var now := schedule + [AStartFill(t, migrate)];
            var code := if t >= cfg.workers then Filled(Own)
                        else if migrate then MigrateTake(High) else Fill(Own, High);
            Seen(cfg, now, t, Frame(code, multiset{}))
  {
    assert (schedule + [AStartFill(t, migrate)])[..|schedule|] == schedule;
    hide WasEmpty, Done1;
  }

  lemma MigrateSees(cfg: Config, schedule: seq<Action>, t: Thread, a: Action, f: Frame)
    requires Seen(cfg, schedule, t, f) && a.t == t && (a.AMigrateTake? || a.AMigratePut?)
    requires f.code.MigrateTake? || f.code.MigratePut?
    ensures f.code.MigrateTake? ==>
              forall held :: Seen(cfg, schedule + [a], t, Frame(MigratePut(f.code.priority), held))
    ensures f.code.MigratePut? ==> Seen(cfg, schedule + [a], t, Frame(AfterMigrate(f.code.priority), multiset{}))
  {
    ChoiceStays(schedule, a, t);
    hide WasEmpty, Done1, Chosen;
  }

  /** Of the pool that a thorough dequeue looks at nothing is left, or the batch is full afterwards. */
  lemma TakeLeavesNothing(cfg: Config, s: State, t: Thread, p: Place, taken: multiset<Job>, code: Code)
    requires Alive(s, t) && !p.Hand? && taken <= At(s, p)
    requires |Top(s, t).held| <= cfg.cacheSize
    requires |taken| == Min(cfg.cacheSize - |Top(s, t).held|, |At(s, p)|)
    ensures |Top(s, t).held + taken| == cfg.cacheSize || At(Grab(s, t, p, taken, code), p) == multiset{}
    ensures |Top(s, t).held| <= |Top(s, t).held + taken| <= cfg.cacheSize
  {
    if |taken| == |At(s, p)| {
      assert At(s, p) == taken + (At(s, p) - taken);
      assert |At(s, p) - taken| == 0;
    }
    assert |Top(s, t).held + taken| == |Top(s, t).held| + |taken|;
  }

  /** After a dequeue the pool it looked at is done, and the ones done before still are. */
  lemma TakeIsDone(cfg: Config, schedule: seq<Action>, s: State, t: Thread, taken: multiset<Job>)
    requires Execute(cfg, schedule) == Some(s) && Enabled(cfg, s, ATake(t, taken)) && Thorough(cfg, s, ATake(t, taken))
    ensures var now := schedule + [ATake(t, taken)];
            var held := Top(s, t).held + taken;
            && Done1(cfg, now, t, held, SourcePlace(cfg, t, Top(s, t).code.source, Top(s, t).code.priority))
            && forall p: Place :: Done1(cfg, schedule, t, Top(s, t).held, p) ==> Done1(cfg, now, t, held, p)
  {
    var a, now := ATake(t, taken), schedule + [ATake(t, taken)];
    var top := Top(s, t);
    var p := SourcePlace(cfg, t, top.code.source, top.code.priority);
    TakeLeavesNothing(cfg, s, t, p, taken, AfterFill(top.code.source, top.code.priority));
    assert now[..|schedule|] == schedule;
    assert Execute(cfg, now) == Some(Apply(cfg, s, a));
    assert Apply(cfg, s, a) == Grab(s, t, p, taken, AfterFill(top.code.source, top.code.priority));
    StartIsBefore(now, t);
    hide Execute, Enabled, Apply, Thorough, At, Grab, WasEmpty, LastStart;
    if |top.held + taken| != cfg.cacheSize {
      EmptyNow(cfg, now, LastStart(now, t), p);
    }
    forall q: Place | Done1(cfg, schedule, t, top.held, q) ensures Done1(cfg, now, t, top.held + taken, q) {
      if |top.held| != cfg.cacheSize { DoneLasts(cfg, schedule, a, t, top.held, q); }
    }
  }

  lemma TakeSees(cfg: Config, schedule: seq<Action>, s: State, t: Thread, taken: multiset<Job>)
    requires Execute(cfg, schedule) == Some(s) && Enabled(cfg, s, ATake(t, taken)) && Thorough(cfg, s, ATake(t, taken))
    requires Seen(cfg, schedule, t, Top(s, t))
    ensures var top := Top(s, t);
            Seen(cfg, schedule + [ATake(t, taken)], t,
                 Frame(AfterFill(top.code.source, top.code.priority), top.held + taken))
  {
    var a, top := ATake(t, taken), Top(s, t);
    TakeIsDone(cfg, schedule, s, t, taken);
    assert top.code.Fill?;
    hide Execute, Enabled, Thorough, At, Top, Seen;
    NextSees(cfg, schedule, a, t, top, top.held + taken);
  }

  lemma NextSees(cfg: Config, schedule: seq<Action>, a: Action, t: Thread, f: Frame, held: multiset<Job>)
    requires a.ATake? && a.t == t && f.code.Fill? && Seen(cfg, schedule, t, f)
    requires Done1(cfg, schedule + [a], t, held, SourcePlace(cfg, t, f.code.source, f.code.priority))
    requires forall p: Place :: Done1(cfg, schedule, t, f.held, p) ==> Done1(cfg, schedule + [a], t, held, p)
    ensures Seen(cfg, schedule + [a], t, Frame(AfterFill(f.code.source, f.code.priority), held))
  {
    ChoiceStays(schedule, a, t);
    hide LastStart, Chosen, Done1, OwnSeen, VictimSeen;
    if !f.code.source.Own? { OwnLasts(cfg, schedule, a, t); }
    if f.code.source.Global? { VictimLasts(cfg, schedule, a, t); }
    EarlierOrSame(f.code.priority);
  }

  /** The priorities before the next one to be tried. */
  lemma EarlierOrSame(p: Priority)
    ensures match NextPriority(p)
            case Some(n) => forall q: Priority :: Earlier(q, n) ==> Earlier(q, p) || q == p
            case None => forall q: Priority :: Earlier(q, p) || q == p
  {
    match p
    case High =>
    case Normal =>
    case Low =>
      forall q: Priority ensures Earlier(q, p) || q == p {
        match q
        case High =>
        case Normal =>
        case Low =>
      }
  }

  lemma DoneMeansEmpty(cfg: Config, schedule: seq<Action>, t: Thread, p: Place)
    requires cfg.cacheSize > 0 && Done1(cfg, schedule, t, multiset{}, p)
    ensures WasEmpty(cfg, schedule, LastStart(schedule, t), p)
  {
  }

  /** An empty-handed thread goes on to the next source. */
  lemma SettleSees(cfg: Config, schedule: seq<Action>, s: State, t: Thread, victim: Option<nat>)
    requires cfg.cacheSize > 0 && Execute(cfg, schedule) == Some(s) && Enabled(cfg, s, ASettle(t, victim))
    requires Seen(cfg, schedule, t, Top(s, t)) && Top(s, t).held == multiset{} && !Top(s, t).code.source.Global?
    ensures var next := if Top(s, t).code.source.Own? && victim.Some? then Fill(Victim(victim.value), High)
                        else Fill(Global, High);
            Seen(cfg, schedule + [ASettle(t, victim)], t, Frame(next, multiset{}))
  {
    var a, source := ASettle(t, victim), Top(s, t).code.source;
    assert Top(s, t).code == Filled(source);
    if source.Own? {
      ChoiceMade(schedule, a, t);
      assert victim.Some? ==> victim.value < cfg.workers && victim.value != t;
      assert victim.None? ==> cfg.workers == 0 || t < cfg.workers;
      hide Execute, Enabled, LastStart, Chosen, Done1, WasEmpty;
      if t < cfg.workers {
        forall q: Priority ensures WasEmpty(cfg, schedule, LastStart(schedule, t), Local(t, q)) {
          DoneMeansEmpty(cfg, schedule, t, Local(t, q));
        }
      }
      OwnLasts(cfg, schedule, a, t);
    } else {
      ChoiceStays(schedule, a, t);
      hide Execute, Enabled, LastStart, Chosen, Done1, WasEmpty;
      forall q: Priority ensures WasEmpty(cfg, schedule, LastStart(schedule, t), Stealable(source.worker, q)) {
        DoneMeansEmpty(cfg, schedule, t, Stealable(source.worker, q));
      }
      OwnLasts(cfg, schedule, a, t);
      VictimLasts(cfg, schedule, a, t);
    }
  }

  lemma ChoiceMade(schedule: seq<Action>, a: Action, t: Thread)
    requires a.ASettle? && a.t == t && Chosen(schedule, t) == None
    ensures Chosen(schedule + [a], t) == Some(a.victim)
  {
    assert (schedule + [a])[..|schedule|] == schedule;
  }

  // ---------------------------------------------------------------- every step

  ghost predicate AllSeen(cfg: Config, schedule: seq<Action>, s: State) {
    forall t :: 0 <= t < |s.stack| && s.stack[t] != [] ==> Seen(cfg, schedule, t, Last(s.stack[t]))
  }

  lemma NotFetchingSees(cfg: Config, schedule: seq<Action>, t: Thread, f: Frame)
    requires !Fetching(f.code)
    ensures Seen(cfg, schedule, t, f)
  {
  }

  /** The top frame of another thread is the same, or it is one of a waiting loop. */
  lemma OtherSees(cfg: Config, schedule: seq<Action>, s: State, a: Action, next: State, t: Thread)
    requires OthersUntouched(s, next, a) && a.t != t && t < |s.stack| && s.stack[t] != []
    requires Seen(cfg, schedule, t, Last(s.stack[t]))
    ensures next.stack[t] != [] && Seen(cfg, schedule + [a], t, Last(next.stack[t]))
  {
    hide Seen;
    if next.stack[t] == s.stack[t] {
      SeenLasts(cfg, schedule, a, t, Last(s.stack[t]));
    } else {
      NotFetchingSees(cfg, schedule + [a], t, Last(next.stack[t]));
    }
  }

  /** The frames that the steps of a fetch leave on top. */
  lemma FetchTops(cfg: Config, s: State, a: Action)
    requires Enabled(cfg, s, a)
    ensures var next, top := Apply(cfg, s, a), Top(s, a.t);
            match a
            case AStartFill(t, migrate) =>
              Alive(next, t) && Top(next, t) == Frame(if t >= cfg.workers then Filled(Own)
                                                      else if migrate then MigrateTake(High) else Fill(Own, High),
                                                      top.held)
            case AMigrateTake(t, taken) =>
              Alive(next, t) && Top(next, t) == Frame(MigratePut(top.code.priority), top.held + taken)
            case AMigratePut(t) => Alive(next, t) && Top(next, t) == Frame(AfterMigrate(top.code.priority), multiset{})
            case ATake(t, taken) =>
              Alive(next, t)
              && Top(next, t) == Frame(AfterFill(top.code.source, top.code.priority), top.held + taken)
            case ASettle(t, victim) =>
              top.held == multiset{} && !top.code.source.Global? ==>
                Alive(next, t)
                && Top(next, t) == Frame(if top.code.source.Own? && victim.Some? then Fill(Victim(victim.value), High)
                                         else Fill(Global, High), multiset{})
            case _ => true
  {
    hide At, SetPool;
    match a
    case AStartFill(_, _) =>
    case AMigrateTake(_, _) =>
    case AMigratePut(_) =>
    case ATake(_, _) =>
    case ASettle(_, _) =>
    case _ =>
  }

  /** After any other step, or when a fetch ends, the thread is not fetching. */
  lemma OtherTops(cfg: Config, s: State, a: Action)
    requires Enabled(cfg, s, a) && StackTidy(cfg, s.stack[a.t])
    requires !a.AStartFill? && !a.AMigrateTake? && !a.AMigratePut? && !a.ATake?
    requires a.ASettle? ==> Top(s, a.t).held != multiset{} || Top(s, a.t).code.source.Global?
    ensures var next := Apply(cfg, s, a);
            a.t < |next.stack| && (Alive(next, a.t) ==> !Fetching(Top(next, a.t).code))
  {
    var next := Apply(cfg, s, a);
    if a.ASettle? {
      SettleStepTidy(cfg, s, a.t, a.victim);
      PoppedIsTidy(cfg, s, a.t);
      hide At, SetPool, StackTidy;
    } else {
      assert !a.ARunCached? && !CallStep(a) ==> Top(s, a.t).code.Waiting?;
      hide Apply, Enabled, StackTidy;
      if JobStep(a) { JobStepTidy(cfg, s, a, next); }
      else if CallStep(a) { CallStepTidy(cfg, s, a, next); }
      else { OtherStepTidy(cfg, s, a, next); }
    }
  }

  lemma OwnSees(cfg: Config, schedule: seq<Action>, s: State, a: Action)
    requires cfg.cacheSize > 0 && Execute(cfg, schedule) == Some(s) && Enabled(cfg, s, a) && Thorough(cfg, s, a)
    requires Good(cfg, s) && Tidy(cfg, s) && Seen(cfg, schedule, a.t, Top(s, a.t))
    ensures var next := Apply(cfg, s, a);
            a.t < |next.stack| && (Alive(next, a.t) ==> Seen(cfg, schedule + [a], a.t, Top(next, a.t)))
  {
    var next, top := Apply(cfg, s, a), Top(s, a.t);
    FetchTops(cfg, s, a);
    TopOk(cfg, s, a.t);
    hide Execute, Apply, Good, Thorough, Seen, Tidy, SourcePlace, AfterFill, AfterMigrate;
    if a.AStartFill? {
      StartSees(cfg, schedule, a.t, a.migrate);
    } else if a.AMigrateTake? || a.AMigratePut? {
      MigrateSees(cfg, schedule, a.t, a, top);
    } else if a.ATake? {
      TakeSees(cfg, schedule, s, a.t, a.taken);
    } else if a.ASettle? && top.held == multiset{} && !top.code.source.Global? {
      SettleSees(cfg, schedule, s, a.t, a.victim);
    } else {
      StackOfTidy(cfg, s, a.t);
      OtherTops(cfg, s, a);
      if Alive(next, a.t) { NotFetchingSees(cfg, schedule + [a], a.t, Top(next, a.t)); }
    }
  }

  lemma StackOfTidy(cfg: Config, s: State, t: Thread)
    requires Tidy(cfg, s) && t < |s.stack|
    ensures StackTidy(cfg, s.stack[t])
  {
  }

  lemma StepSees(cfg: Config, schedule: seq<Action>, s: State, a: Action)
    requires cfg.cacheSize > 0 && Execute(cfg, schedule) == Some(s) && Enabled(cfg, s, a) && Thorough(cfg, s, a)
    requires Good(cfg, s) && Tidy(cfg, s) && AllSeen(cfg, schedule, s)
    ensures AllSeen(cfg, schedule + [a], Apply(cfg, s, a))
  {
    var next := Apply(cfg, s, a);
    assert Alive(s, a.t);
    StepTouchesOneStack(cfg, s, a, next);
    AllAlive(cfg, s);
    hide Execute, Enabled, Apply, Thorough, Good, Tidy, Seen, OthersUntouched;
    OwnSees(cfg, schedule, s, a);
    assert |next.stack| == |s.stack| by { StackNumber(s, next, a); }
    forall t | 0 <= t < |next.stack| && next.stack[t] != [] ensures Seen(cfg, schedule + [a], t, Last(next.stack[t])) {
      if t != a.t { OtherSees(cfg, schedule, s, a, next, t); }
    }
  }

  lemma StackNumber(s: State, next: State, a: Action)
    requires OthersUntouched(s, next, a)
    ensures |next.stack| == |s.stack|
  {
  }

  lemma AllAlive(cfg: Config, s: State)
    requires Good(cfg, s)
    ensures forall t :: 0 <= t < |s.stack| ==> s.stack[t] != []
  {
  }

  lemma {:induction false} ReachedSees(cfg: Config, schedule: seq<Action>)
    requires cfg.cacheSize > 0 && Execute(cfg, schedule).Some? && ThoroughRun(cfg, schedule)
    ensures AllSeen(cfg, schedule, Execute(cfg, schedule).value)
    decreases |schedule|
  {
    hide *;
    if schedule == [] {
      InitialSees(cfg);
    } else {
      var before, a := schedule[..|schedule| - 1], schedule[|schedule| - 1];
      ThoroughLast(cfg, schedule);
      ReachedSees(cfg, before);
      ReachedIsGood(cfg, before);
      ReachedIsTidy(cfg, before);
      StepSees(cfg, before, Execute(cfg, before).value, a);
      assert before + [a] == schedule;
    }
  }

  lemma InitialSees(cfg: Config)
    ensures AllSeen(cfg, [], Execute(cfg, []).value)
  {
  }

  // ---------------------------------------------------------------- what follows

  /** Thread `t` is at the end of a fetch, has nothing in its hands, and is about to report an empty queue. */
  predicate ReportsEmpty(s: State, t: Thread) {
    Alive(s, t) && Top(s, t) == Frame(Filled(Global), multiset{})
  }

  /**
   * An iteration that reports an empty queue is right to do so: since it began, the worker's own
   * queues, the stealable ones of its victim and the global ones, of every priority, have each been
   * empty at some moment.
   */
  lemma EmptyReportIsTrue(cfg: Config, schedule: seq<Action>, t: Thread, p: Priority)
    requires cfg.cacheSize > 0 && Execute(cfg, schedule).Some? && ThoroughRun(cfg, schedule)
    requires ReportsEmpty(Execute(cfg, schedule).value, t)
    ensures var start := LastStart(schedule, t);
            && (t < cfg.workers ==> WasEmpty(cfg, schedule, start, Local(t, p)))
            && WasEmpty(cfg, schedule, start, Local(cfg.workers, p))
            && match Chosen(schedule, t)
               case Some(Some(v)) => v != t && v < cfg.workers && WasEmpty(cfg, schedule, start, Stealable(v, p))
               case Some(None) => t < cfg.workers || cfg.workers == 0
               case None => false
  {
    var s := Execute(cfg, schedule).value;
    ReachedSees(cfg, schedule);
    assert Seen(cfg, schedule, t, Last(s.stack[t]));
    hide Execute, ThoroughRun, WasEmpty, LastStart, Chosen, AllSeen;
    DoneMeansEmpty(cfg, schedule, t, Local(cfg.workers, p));
  }

  function WithPriority(p: Place, q: Priority): Place
    requires p.Local? || p.Stealable?
  {
    if p.Local? then Local(p.context, q) else Stealable(p.context, q)
  }

  /**
   * Jobs of a lower priority are only taken once the same queue had none of a higher one; and those
   * of the global queue only once the worker's own queues were empty.
   */
  lemma HigherComesFirst(cfg: Config, schedule: seq<Action>, t: Thread, taken: multiset<Job>, p: Place, q: Priority)
    requires cfg.cacheSize > 0 && Execute(cfg, schedule).Some? && ThoroughRun(cfg, schedule)
    requires Enabled(cfg, Execute(cfg, schedule).value, ATake(t, taken)) && (p.Local? || p.Stealable?)
    requires var s := Execute(cfg, schedule).value; At(Apply(cfg, s, ATake(t, taken)), p) != At(s, p)
    ensures MayTakeFrom(cfg, t, p)
    ensures (q == High && p.priority != High) || (q == Normal && p.priority == Low) ==>
              WasEmpty(cfg, schedule, LastStart(schedule, t), WithPriority(p, q))
    ensures t < cfg.workers && p.context != t ==> WasEmpty(cfg, schedule, LastStart(schedule, t), Local(t, q))
  {
    hide *;
    var s := Execute(cfg, schedule).value;
    ReachedSees(cfg, schedule);
    TakenPool(cfg, s, t, taken, p);
    SeenAt(cfg, schedule, s, t);
    SeenBefore(cfg, schedule, t, Top(s, t), p, q);
  }

  lemma SeenAt(cfg: Config, schedule: seq<Action>, s: State, t: Thread)
    requires AllSeen(cfg, schedule, s) && Alive(s, t)
    ensures Seen(cfg, schedule, t, Top(s, t))
  {
    hide Seen;
  }

  lemma SeenBefore(cfg: Config, schedule: seq<Action>, t: Thread, f: Frame, p: Place, q: Priority)
    requires f.code.Fill? && |f.held| < cfg.cacheSize && Seen(cfg, schedule, t, f) && (p.Local? || p.Stealable?)
    requires SourcePlace(cfg, t, f.code.source, f.code.priority) == p
    ensures MayTakeFrom(cfg, t, p)
    ensures (q == High && p.priority != High) || (q == Normal && p.priority == Low) ==>
              WasEmpty(cfg, schedule, LastStart(schedule, t), WithPriority(p, q))
    ensures t < cfg.workers && p.context != t ==> WasEmpty(cfg, schedule, LastStart(schedule, t), Local(t, q))
  {
    hide WasEmpty, LastStart, Chosen;
    assert Earlier(q, p.priority) ==> Done1(cfg, schedule, t, f.held, WithPriority(p, q));
  }

  lemma TakenPool(cfg: Config, s: State, t: Thread, taken: multiset<Job>, p: Place)
    requires Enabled(cfg, s, ATake(t, taken)) && !p.Hand?
    requires At(Apply(cfg, s, ATake(t, taken)), p) != At(s, p)
    ensures Alive(s, t) && Top(s, t).code.Fill?
    ensures SourcePlace(cfg, t, Top(s, t).code.source, Top(s, t).code.priority) == p
    ensures |Top(s, t).held| < cfg.cacheSize
  {
    var from := SourcePlace(cfg, t, Top(s, t).code.source, Top(s, t).code.priority);
    var next := Apply(cfg, s, ATake(t, taken));
    PoolElsewhere(s, next, from, At(s, from) - taken, p);
    NoneTaken(At(s, from), taken);
    hide At, SetPool;
  }

  lemma NoneTaken(m: multiset<Job>, taken: multiset<Job>)
    ensures |taken| == 0 ==> m - taken == m
  {
  }
}

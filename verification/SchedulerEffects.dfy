/** What whole operations of one thread do, from every state that the scheduler can reach. */
module SchedulerEffects {
  import opened Wrappers
  import opened JobTypes
  import opened Scheduler
  import opened SchedulerPlaces
  import opened SchedulerRuns
  import opened SchedulerCache

  /** The state after more steps; None when one of them is not enabled where it stands. */
  function Run(cfg: Config, s: State, steps: seq<Action>): Option<State>
    decreases |steps|
  {
    if steps == [] then Some(s)
    else if Enabled(cfg, s, steps[0]) then Run(cfg, Apply(cfg, s, steps[0]), steps[1..])
    else None
  }

  lemma {:induction false} RunContinues(cfg: Config, schedule: seq<Action>, steps: seq<Action>)
    requires Execute(cfg, schedule).Some?
    ensures Execute(cfg, schedule + steps) == Run(cfg, Execute(cfg, schedule).value, steps)
    decreases |steps|
  {
    if steps == [] {
      assert schedule + steps == schedule;
    } else {
      var first := schedule + [steps[0]];
      assert schedule + steps == first + steps[1..];
      assert first[..|schedule|] == schedule;
      hide Enabled, Apply;
      if Execute(cfg, first).Some? {
        RunContinues(cfg, first, steps[1..]);
      } else {
        NoneContinues(cfg, first, steps[1..]);
      }
    }
  }

  lemma {:induction false} NoneContinues(cfg: Config, schedule: seq<Action>, steps: seq<Action>)
    requires Execute(cfg, schedule).None?
    ensures Execute(cfg, schedule + steps).None?
    decreases |steps|
  {
    if steps == [] {
      assert schedule + steps == schedule;
    } else {
      assert (schedule + steps)[..|schedule + steps| - 1] == schedule + steps[..|steps| - 1];
      NoneContinues(cfg, schedule, steps[..|steps| - 1]);
    }
  }

  lemma {:induction false} RunBoth(cfg: Config, s: State, a: seq<Action>, b: seq<Action>)
    requires Run(cfg, s, a).Some?
    ensures Run(cfg, s, a + b) == Run(cfg, Run(cfg, s, a).value, b)
    decreases |a|
  {
    if a == [] {
      assert a + b == b;
    } else {
      assert (a + b)[1..] == a[1..] + b;
      hide Enabled, Apply;
      RunBoth(cfg, Apply(cfg, s, a[0]), a[1..], b);
    }
  }

  /** One step more at the end. */
  lemma Then(cfg: Config, s: State, steps: seq<Action>, middle: State, a: Action, next: State)
    requires Run(cfg, s, steps) == Some(middle) && Enabled(cfg, middle, a) && Apply(cfg, middle, a) == next
    ensures Run(cfg, s, steps + [a]) == Some(next)
  {
    RunBoth(cfg, s, steps, [a]);
    assert Run(cfg, middle, [a]) == Run(cfg, next, [a][1..]);
    hide Enabled, Apply;
  }

  /** All the steps are thread `t`'s. */
  predicate Only(steps: seq<Action>, t: Thread) {
    forall i :: 0 <= i < |steps| ==> steps[i].t == t
  }

  // ---------------------------------------------------------------- fetching

  /** Thread `t` is at `code` above `below`, with `held` in its hands. */
  predicate Stands(s: State, t: Thread, below: seq<Frame>, code: Code, held: multiset<Job>) {
    t < |s.stack| && s.stack[t] == below + [Frame(code, held)]
  }

  /** No queue and no cache but `p` has changed. */
  ghost predicate SamePoolsBut(s: State, next: State, p: Place) {
    forall q: Place :: !q.Hand? && q != p ==> At(next, q) == At(s, q)
  }

  ghost predicate SameQueues(s: State, next: State) {
    forall q: Place :: !q.Hand? ==> At(next, q) == At(s, q)
  }

  lemma CanTakeFrom(cfg: Config, s: State, t: Thread, below: seq<Frame>, source: Source, p: Priority,
          held: multiset<Job>, taken: multiset<Job>)
    requires Stands(s, t, below, Fill(source, p), held) && |held| + |taken| <= cfg.cacheSize
    requires taken <= At(s, SourcePlace(cfg, t, source, p))
    ensures Enabled(cfg, s, ATake(t, taken))
    ensures var next := Apply(cfg, s, ATake(t, taken));
            && Stands(next, t, below, AfterFill(source, p), held + taken)
            && SamePoolsBut(s, next, SourcePlace(cfg, t, source, p))
            && (taken == multiset{} ==> SameQueues(s, next))
  {
    var next, from := Apply(cfg, s, ATake(t, taken)), SourcePlace(cfg, t, source, p);
    assert Alive(s, t) && Top(s, t) == Frame(Fill(source, p), held);
    assert next.stack[t] == below + [Frame(AfterFill(source, p), held + taken)];
    forall q: Place | !q.Hand? ensures At(next, q) == if q == from then At(s, from) - taken else At(s, q) {
      PoolElsewhere(s, next, from, At(s, from) - taken, q);
    }
    hide At, SetPool;
  }

  /** Which job of a source to take, if any. */
  datatype Wish = Nothing | Wish(p: Priority, j: Job)

  function Wanted(wish: Wish, p: Priority): multiset<Job> {
    if wish.Wish? && wish.p == p then multiset{wish.j} else multiset{}
  }

  function WishedFor(wish: Wish): multiset<Job> {
    if wish.Wish? then multiset{wish.j} else multiset{}
  }

  /** The job wished for is where it is looked for, unless it is in the hands already. */
  ghost predicate Granted(cfg: Config, s: State, t: Thread, source: Source, wish: Wish, held: multiset<Job>) {
    wish.Wish? && held == multiset{} ==> wish.j in At(s, SourcePlace(cfg, t, source, wish.p))
  }

  lemma TryPriority(cfg: Config, s: State, t: Thread, below: seq<Frame>, source: Source, p: Priority,
          held: multiset<Job>, wish: Wish)
    returns (next: State)
    requires cfg.cacheSize > 0 && Stands(s, t, below, Fill(source, p), held)
    requires (Wanted(wish, p) != multiset{} ==> held == multiset{}) && Granted(cfg, s, t, source, wish, held)
    requires |held| <= 1 || held == multiset{}
    ensures Enabled(cfg, s, ATake(t, Wanted(wish, p))) && Apply(cfg, s, ATake(t, Wanted(wish, p))) == next
    ensures Stands(next, t, below, AfterFill(source, p), held + Wanted(wish, p))
    ensures Granted(cfg, next, t, source, wish, held + Wanted(wish, p)) && |held + Wanted(wish, p)| <= 1
    ensures Wanted(wish, p) == multiset{} ==> SameQueues(s, next)
  {
    var taken := Wanted(wish, p);
    if wish.Wish? { assert |multiset{wish.j}| == 1; }
    CanTakeFrom(cfg, s, t, below, source, p, held, taken);
    next := Apply(cfg, s, ATake(t, taken));
    hide Enabled, Apply, At, Stands;
  }

  lemma FillOrder(source: Source)
    ensures AfterFill(source, High) == Fill(source, Normal) && AfterFill(source, Normal) == Fill(source, Low)
    ensures AfterFill(source, Low) == Filled(source)
  {
  }

  lemma WantedOnce(wish: Wish)
    ensures multiset{} + Wanted(wish, High) + Wanted(wish, Normal) + Wanted(wish, Low) == WishedFor(wish)
    ensures Wanted(wish, Normal) != multiset{} ==> multiset{} + Wanted(wish, High) == multiset{}
    ensures Wanted(wish, Low) != multiset{} ==> multiset{} + Wanted(wish, High) + Wanted(wish, Normal) == multiset{}
    ensures wish.Nothing? ==> forall p: Priority :: Wanted(wish, p) == multiset{}
  {
    if wish.Wish? {
      match wish.p
      case High =>
      case Normal =>
      case Low =>
    }
  }

  lemma GrantedAtFirst(cfg: Config, s: State, t: Thread, source: Source, wish: Wish)
    requires wish.Wish? ==> wish.j in At(s, SourcePlace(cfg, t, source, wish.p))
    ensures Granted(cfg, s, t, source, wish, multiset{}) && Run(cfg, s, []) == Some(s)
    ensures SameQueues(s, s)
  {
  }

  lemma SameTwice(a: State, b: State, c: State)
    requires SameQueues(a, b) && SameQueues(b, c)
    ensures SameQueues(a, c)
  {
    hide At;
  }

  lemma OnlyThree(t: Thread, a: Action, b: Action, c: Action)
    requires a.t == b.t == c.t == t
    ensures Only([] + [a] + [b] + [c], t)
  {
  }

  /** All three priorities of a source are tried, and the job wished for comes along. */
  lemma TrySource(cfg: Config, s: State, t: Thread, below: seq<Frame>, source: Source, wish: Wish)
    returns (steps: seq<Action>, next: State)
    requires cfg.cacheSize > 0 && Stands(s, t, below, Fill(source, High), multiset{})
    requires wish.Wish? ==> wish.j in At(s, SourcePlace(cfg, t, source, wish.p))
    ensures Run(cfg, s, steps) == Some(next) && Stands(next, t, below, Filled(source), WishedFor(wish))
    ensures wish.Nothing? ==> SameQueues(s, next)
    ensures Only(steps, t)
  {
    GrantedAtFirst(cfg, s, t, source, wish);
    hide *;
    FillOrder(source);
    WantedOnce(wish);
    var s1 := TryPriority(cfg, s, t, below, source, High, multiset{}, wish);
    Then(cfg, s, [], s, ATake(t, Wanted(wish, High)), s1);
    var s2 := TryPriority(cfg, s1, t, below, source, Normal, multiset{} + Wanted(wish, High), wish);
    steps := [] + [ATake(t, Wanted(wish, High))];
    Then(cfg, s, steps, s1, ATake(t, Wanted(wish, Normal)), s2);
    next := TryPriority(cfg, s2, t, below, source, Low, multiset{} + Wanted(wish, High) + Wanted(wish, Normal), wish);
    steps := steps + [ATake(t, Wanted(wish, Normal))];
    Then(cfg, s, steps, s2, ATake(t, Wanted(wish, Low)), next);
    steps := steps + [ATake(t, Wanted(wish, Low))];
    OnlyThree(t, ATake(t, Wanted(wish, High)), ATake(t, Wanted(wish, Normal)), ATake(t, Wanted(wish, Low)));
    if wish.Nothing? {
      SameTwice(s, s1, s2);
      SameTwice(s, s2, next);
    }
  }

  /** An empty-handed thread goes on to a source. */
  lemma MoveOn(cfg: Config, s: State, t: Thread, below: seq<Frame>, source: Source, victim: Option<nat>)
    returns (next: State)
    requires Stands(s, t, below, Filled(source), multiset{}) && !source.Global?
    requires if victim.Some? then victim.value < cfg.workers && victim.value != t
             else cfg.workers == 0 || t < cfg.workers
    ensures Enabled(cfg, s, ASettle(t, victim)) && Apply(cfg, s, ASettle(t, victim)) == next && SameQueues(s, next)
    ensures Stands(next, t, below, if source.Own? && victim.Some? then Fill(Victim(victim.value), High)
                                   else Fill(Global, High), multiset{})
  {
    next := Apply(cfg, s, ASettle(t, victim));
    var to := if source.Own? && victim.Some? then Fill(Victim(victim.value), High) else Fill(Global, High);
    assert Alive(s, t) && Top(s, t) == Frame(Filled(source), multiset{});
    assert next == WithCode(s, t, to);
    assert next.stack[t] == below + [Frame(to, multiset{})];
  }

  /** A thread with a batch publishes it, and is back in the code below. */
  lemma PublishBatch(cfg: Config, s: State, t: Thread, below: seq<Frame>, source: Source, j: Job, victim: Option<nat>)
    returns (next: State)
    requires Stands(s, t, below, Filled(source), multiset{j})
    requires if victim.Some? then victim.value < cfg.workers && victim.value != t
             else cfg.workers == 0 || t < cfg.workers
    ensures Enabled(cfg, s, ASettle(t, victim)) && Apply(cfg, s, ASettle(t, victim)) == next
    ensures next.stack == s.stack[t := below] && At(next, Cache(t)) == multiset{j}
  {
    next := Apply(cfg, s, ASettle(t, victim));
    assert Alive(s, t) && Top(s, t) == Frame(Filled(source), multiset{j});
    assert next == Publish(s, t);
    assert next.stack[t] == below;
  }

  /** A fetch begins. */
  lemma BeginFetch(cfg: Config, s: State, t: Thread, below: seq<Frame>) returns (next: State)
    requires Stands(s, t, below, Iterate, multiset{}) && At(s, Cache(t)) == multiset{}
    ensures Enabled(cfg, s, AStartFill(t, false)) && Apply(cfg, s, AStartFill(t, false)) == next
    ensures Stands(next, t, below, if t < cfg.workers then Fill(Own, High) else Filled(Own), multiset{})
    ensures SameQueues(s, next)
  {
    next := Apply(cfg, s, AStartFill(t, false));
    assert Alive(s, t) && Top(s, t) == Frame(Iterate, multiset{});
    assert next.stack[t] == below + [Frame(if t < cfg.workers then Fill(Own, High) else Filled(Own), multiset{})];
  }

  /** The part of a fetch that looks into the thread's own queue. */
  lemma TryOwn(cfg: Config, s: State, t: Thread, below: seq<Frame>, wish: Wish)
    returns (steps: seq<Action>, next: State)
    requires cfg.cacheSize > 0 && Stands(s, t, below, Iterate, multiset{}) && At(s, Cache(t)) == multiset{}
    requires wish.Wish? ==> t < cfg.workers && wish.j in At(s, Local(t, wish.p))
    ensures Run(cfg, s, steps) == Some(next) && Stands(next, t, below, Filled(Own), WishedFor(wish))
    ensures wish.Nothing? ==> SameQueues(s, next)
    ensures Only(steps, t)
  {
    GrantedAtFirst(cfg, s, t, Own, Nothing);
    var s1 := BeginFetch(cfg, s, t, below);
    assert wish.Wish? ==> SourcePlace(cfg, t, Own, wish.p) == Local(t, wish.p)
                          && wish.j in At(s1, Local(t, wish.p));
    hide Run, At, Stands, Enabled, Apply, SameQueues;
    Then(cfg, s, [], s, AStartFill(t, false), s1);
    steps, next := [] + [AStartFill(t, false)], s1;
    if t < cfg.workers {
      var more;
      more, next := TrySource(cfg, s1, t, below, Own, wish);
      RunBoth(cfg, s, steps, more);
      steps := steps + more;
      if wish.Nothing? { SameTwice(s, s1, next); }
    }
  }

  /** And then into the stealable queue of a victim. */
  lemma TryVictim(cfg: Config, s: State, t: Thread, below: seq<Frame>, v: nat, wish: Wish)
    returns (steps: seq<Action>, next: State)
    requires cfg.cacheSize > 0 && Stands(s, t, below, Filled(Own), multiset{}) && v < cfg.workers && v != t
    requires wish.Wish? ==> wish.j in At(s, Stealable(v, wish.p))
    ensures Run(cfg, s, steps) == Some(next) && Stands(next, t, below, Filled(Victim(v)), WishedFor(wish))
    ensures wish.Nothing? ==> SameQueues(s, next)
    ensures Only(steps, t)
  {
    GrantedAtFirst(cfg, s, t, Own, Nothing);
    var s1 := MoveOn(cfg, s, t, below, Own, Some(v));
    assert wish.Wish? ==> SourcePlace(cfg, t, Victim(v), wish.p) == Stealable(v, wish.p)
                          && wish.j in At(s1, Stealable(v, wish.p));
    hide Run, At, Stands, Enabled, Apply, SameQueues;
    Then(cfg, s, [], s, ASettle(t, Some(v)), s1);
    var more;
    more, next := TrySource(cfg, s1, t, below, Victim(v), wish);
    steps := [] + [ASettle(t, Some(v))];
    RunBoth(cfg, s, steps, more);
    steps := steps + more;
    if wish.Nothing? { SameTwice(s, s1, next); }
  }

  /** And then into the global queue. */
  lemma TryGlobal(cfg: Config, s: State, t: Thread, below: seq<Frame>, source: Source, victim: Option<nat>, wish: Wish)
    returns (steps: seq<Action>, next: State)
    requires cfg.cacheSize > 0 && Stands(s, t, below, Filled(source), multiset{})
    requires (source.Own? && victim.None?) || source.Victim?
    requires if victim.Some? then victim.value < cfg.workers && victim.value != t
             else cfg.workers == 0 || t < cfg.workers
    requires wish.Wish? ==> wish.j in At(s, Local(cfg.workers, wish.p))
    ensures Run(cfg, s, steps) == Some(next) && Stands(next, t, below, Filled(Global), WishedFor(wish))
    ensures Only(steps, t)
  {
    GrantedAtFirst(cfg, s, t, Own, Nothing);
    hide Run, At, Stands, Enabled, Apply;
    var s1 := MoveOn(cfg, s, t, below, source, victim);
    assert wish.Wish? ==> SourcePlace(cfg, t, Global, wish.p) == Local(cfg.workers, wish.p)
                          && wish.j in At(s1, Local(cfg.workers, wish.p));
    hide SameQueues;
    Then(cfg, s, [], s, ASettle(t, victim), s1);
    var more;
    more, next := TrySource(cfg, s1, t, below, Global, wish);
    steps := [] + [ASettle(t, victim)];
    RunBoth(cfg, s, steps, more);
    steps := steps + more;
  }

  /** The pools that a fetch of thread `t` may take jobs from. */
  predicate MayTakeFrom(cfg: Config, t: Thread, p: Place) {
    || (p.Local? && (p.context == cfg.workers || (p.context == t && t < cfg.workers)))
    || (p.Stealable? && p.context < cfg.workers && p.context != t)
  }

  /** A thread at the start of an iteration, with an empty cache. */
  predicate Ready(s: State, t: Thread, below: seq<Frame>) {
    Stands(s, t, below, Iterate, multiset{}) && At(s, Cache(t)) == multiset{}
  }

  lemma FetchOwn(cfg: Config, s: State, t: Thread, below: seq<Frame>, p: Priority, j: Job)
    returns (steps: seq<Action>, next: State)
    requires cfg.cacheSize > 0 && Ready(s, t, below) && t < cfg.workers && j in At(s, Local(t, p))
    ensures Run(cfg, s, steps) == Some(next) && Only(steps, t)
    ensures t < |next.stack| && next.stack[t] == below && At(next, Cache(t)) == multiset{j}
  {
    hide Run, At, Enabled, Apply;
    var s1;
    steps, s1 := TryOwn(cfg, s, t, below, Wish(p, j));
    next := PublishBatch(cfg, s1, t, below, Own, j, None);
    Then(cfg, s, steps, s1, ASettle(t, None), next);
    steps := steps + [ASettle(t, None)];
  }

  lemma FetchStolen(cfg: Config, s: State, t: Thread, below: seq<Frame>, v: nat, p: Priority, j: Job)
    returns (steps: seq<Action>, next: State)
    requires cfg.cacheSize > 0 && Ready(s, t, below) && v < cfg.workers && v != t && j in At(s, Stealable(v, p))
    ensures Run(cfg, s, steps) == Some(next) && Only(steps, t)
    ensures t < |next.stack| && next.stack[t] == below && At(next, Cache(t)) == multiset{j}
  {
    hide Run, At, Enabled, Apply;
    var s1, s2, more;
    steps, s1 := TryOwn(cfg, s, t, below, Nothing);
    assert j in At(s1, Stealable(v, p));
    more, s2 := TryVictim(cfg, s1, t, below, v, Wish(p, j));
    RunBoth(cfg, s, steps, more);
    steps := steps + more;
    next := PublishBatch(cfg, s2, t, below, Victim(v), j, Some(v));
    Then(cfg, s, steps, s2, ASettle(t, Some(v)), next);
    steps := steps + [ASettle(t, Some(v))];
  }

  lemma FetchGlobal(cfg: Config, s: State, t: Thread, below: seq<Frame>, p: Priority, j: Job)
    returns (steps: seq<Action>, next: State)
    requires cfg.cacheSize > 0 && Ready(s, t, below) && t <= cfg.workers && j in At(s, Local(cfg.workers, p))
    ensures Run(cfg, s, steps) == Some(next) && Only(steps, t)
    ensures t < |next.stack| && next.stack[t] == below && At(next, Cache(t)) == multiset{j}
  {
    hide Run, At, Enabled, Apply;
    var s1, more;
    steps, s1 := TryOwn(cfg, s, t, below, Nothing);
    assert j in At(s1, Local(cfg.workers, p));
    var victim, source := None, Own;
    if t == cfg.workers && cfg.workers > 0 {
      victim, source := Some(0), Victim(0);
      more, s1 := TryVictim(cfg, s1, t, below, 0, Nothing);
      RunBoth(cfg, s, steps, more);
      steps := steps + more;
    }
    var s2;
    more, s2 := TryGlobal(cfg, s1, t, below, source, victim, Wish(p, j));
    RunBoth(cfg, s, steps, more);
    steps := steps + more;
    next := PublishBatch(cfg, s2, t, below, Global, j, victim);
    Then(cfg, s, steps, s2, ASettle(t, victim), next);
    steps := steps + [ASettle(t, victim)];
  }

  /**
   * No queue is passed over: from every reachable state, a thread at the start of an iteration with
   * an empty cache can go on, by itself, to cache any job of its own queues, of another worker's
   * stealable ones, or of the global one, whatever its priority.
   */
  lemma EveryQueuedJobCanBeFetched(cfg: Config, schedule: seq<Action>, t: Thread, below: seq<Frame>, p: Place, j: Job)
    returns (steps: seq<Action>)
    requires cfg.cacheSize > 0 && Execute(cfg, schedule).Some? && Ready(Execute(cfg, schedule).value, t, below)
    requires MayTakeFrom(cfg, t, p) && j in At(Execute(cfg, schedule).value, p)
    ensures Only(steps, t) && Execute(cfg, schedule + steps).Some?
    ensures var next := Execute(cfg, schedule + steps).value;
            t < |next.stack| && next.stack[t] == below && At(next, Cache(t)) == multiset{j}
  {
    var s := Execute(cfg, schedule).value;
    ReachedIsGood(cfg, schedule);
    assert t < |s.stack| == cfg.workers + 1;
    hide Execute, Good, Run, At;
    var next;
    if p.Stealable? {
      steps, next := FetchStolen(cfg, s, t, below, p.context, p.priority, j);
    } else if p.context == cfg.workers {
      steps, next := FetchGlobal(cfg, s, t, below, p.priority, j);
    } else {
      steps, next := FetchOwn(cfg, s, t, below, p.priority, j);
    }
    RunContinues(cfg, schedule, steps);
  }

  /** And a cached job can be run at once. */
  lemma EveryCachedJobCanRun(cfg: Config, schedule: seq<Action>, t: Thread, below: seq<Frame>, j: Job)
    requires Execute(cfg, schedule).Some? && Stands(Execute(cfg, schedule).value, t, below, Iterate, multiset{})
    requires j in At(Execute(cfg, schedule).value, Cache(t))
    ensures var next := Execute(cfg, schedule + [ARunCached(t, j)]);
            && next.Some? && Stands(next.value, t, below, Body, multiset{j}) && j !in At(next.value, Cache(t))
            && forall k :: k != j ==>
                 At(next.value, Cache(t))[k] == At(Execute(cfg, schedule).value, Cache(t))[k]
  {
    var s := Execute(cfg, schedule).value;
    ReachedIsGood(cfg, schedule);
    assert Single(s, Cache(t), Cache(t), j);
    assert (schedule + [ARunCached(t, j)])[..|schedule|] == schedule;
    hide Execute, Good;
    RunsIt(s, t, below, j);
  }

  lemma RunsIt(s: State, t: Thread, below: seq<Frame>, j: Job)
    requires Stands(s, t, below, Iterate, multiset{}) && At(s, Cache(t))[j] == 1
    ensures var next := Grab(s, t, Cache(t), multiset{j}, Body);
            && Stands(next, t, below, Body, multiset{j}) && j !in At(next, Cache(t))
            && forall k :: k != j ==> At(next, Cache(t))[k] == At(s, Cache(t))[k]
  {
    var next := Grab(s, t, Cache(t), multiset{j}, Body);
    assert Top(s, t) == Frame(Iterate, multiset{});
    assert multiset{} + multiset{j} == multiset{j};
    assert next.stack[t] == below + [Frame(Body, multiset{j})];
  }
}

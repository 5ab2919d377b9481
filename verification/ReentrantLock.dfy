/**
 * The reentrant spin lock as steps: every load, store and compare-exchange is a step of its
 * own, and so is each half of an increment or decrement of the reference count.
 */
module ReentrantLocks {
  import opened Basics

  /** Where a thread is inside an operation. */
  datatype Place =
    | Outside
    | Checking(try: bool)   // about to load the owner
    | Swapping(try: bool)   // about to compare-exchange
    | Won                   // owns the lock, about to load the count
    | Raising(n: nat)       // about to store n + 1
    | Releasing             // in unlock, about to load the count
    | Lowering(n: nat)      // about to store n - 1
    | Testing               // about to compare the count with zero
    | Clearing              // about to store "no owner"

  /** `depth` is how many acquisitions of the thread have not been undone. */
  datatype Thread = Thread(place: Place, depth: nat)

  /** The owner is 0 when the lock is free. */
  datatype State = State(owner: nat, count: nat, threads: seq<Thread>)

  /** A compare-exchange that fails spuriously inside `lock` changes nothing, so it needs no step. */
  datatype Action = CallLock | CallTryLock | CallUnlock | Continue

  datatype Step = Step(thread: nat, action: Action)

  /** The threads' identities are distinct and not zero. */
  function Id(t: nat): nat { t + 1 }

  function With(s: State, t: nat, thread: Thread): State
    requires t < |s.threads|
  {
    s.(threads := s.threads[t := thread])
  }

  function At(s: State, t: nat, place: Place): State
    requires t < |s.threads|
  {
    With(s, t, s.threads[t].(place := place))
  }

  /** A count of type `T` wraps around at `limit`. */
  function Wrap(limit: nat, n: nat): (r: nat)
    requires limit > 0
    ensures r < limit
  {
    n % limit
  }

  /** The next step of the operation that thread `t` is in; the count wraps around at `limit`. */
  function Continued(limit: nat, s: State, t: nat): State
    requires t < |s.threads| && limit > 0
  {
    var thread := s.threads[t];
    match thread.place
    case Outside => s
    case Checking(try) => if s.owner == Id(t) then At(s, t, Won) else At(s, t, Swapping(try))
    case Swapping(try) =>
      if s.owner == 0 then At(s, t, Won).(owner := Id(t))
      else if try then At(s, t, Outside)
      else s
    case Won => At(s, t, Raising(s.count))
    case Raising(n) => With(s, t, thread.(place := Outside, depth := thread.depth + 1)).(count := Wrap(limit, n + 1))
    case Releasing => At(s, t, Lowering(s.count))
    case Lowering(n) =>
      With(s, t, thread.(place := Testing, depth := if thread.depth == 0 then 0 else thread.depth - 1))
        .(count := Wrap(limit, n + limit - 1))
    case Testing => if s.count == 0 then At(s, t, Clearing) else At(s, t, Outside)
    case Clearing => At(s, t, Outside).(owner := 0)
  }

  /** A step that its thread cannot take changes nothing. */
  function Apply(limit: nat, s: State, step: Step): State
    requires limit > 0
  {
    var t := step.thread;
    if t >= |s.threads| then s
    else
      match step.action
      case CallLock => if s.threads[t].place == Outside then At(s, t, Checking(false)) else s
      case CallTryLock => if s.threads[t].place == Outside then At(s, t, Checking(true)) else s
      case CallUnlock =>
        // Only a thread that has acquired the lock may release it.
        if s.threads[t].place == Outside && s.threads[t].depth > 0 then At(s, t, Releasing) else s
      case Continue => Continued(limit, s, t)
  }

  function Initial(threads: nat): State {
    State(0, 0, seq(threads, _ => Thread(Outside, 0)))
  }

  function Execute(limit: nat, s: State, steps: seq<Step>): State
    requires limit > 0
    decreases |steps|
  {
    if steps == [] then s else Apply(limit, Execute(limit, s, steps[..|steps| - 1]), steps[|steps| - 1])
  }

  // ---------------------------------------------------------------- the invariant

  /** The thread has the lock, or is about to count its acquisition, or has still to let it go. */
  predicate Claims(thread: Thread) {
    thread.depth > 0 || thread.place.Won? || thread.place.Raising? || thread.place.Releasing?
    || thread.place.Lowering? || thread.place.Testing? || thread.place.Clearing?
  }

  /**
   * What the thread has seen of the count is still true, and the count is its depth, wrapped
   * around.  The count is compared with zero only after it has been lowered below the limit.
   */
  predicate Counted(limit: nat, s: State, thread: Thread)
    requires limit > 0
  {
    && s.count == Wrap(limit, thread.depth) && thread.depth <= limit
    && (match thread.place
        case Raising(n) => n == s.count
        case Releasing => thread.depth > 0
        case Lowering(n) => n == s.count && thread.depth > 0
        case Testing => thread.depth < limit
        case Clearing => thread.depth == 0
        case Outside => thread.depth > 0
        case Checking(_) => thread.depth > 0
        case Swapping(_) => false
        case _ => true)
  }

  ghost predicate OwnerOnly(s: State, t: nat)
    requires t < |s.threads|
  {
    Claims(s.threads[t]) <==> s.owner == Id(t)
  }

  ghost predicate Good(limit: nat, s: State)
    requires limit > 0
  {
    && (forall t :: 0 <= t < |s.threads| ==> OwnerOnly(s, t))
    && (forall t :: 0 <= t < |s.threads| && s.owner == Id(t) ==> Counted(limit, s, s.threads[t]))
    && (s.owner == 0 ==> s.count == 0)
    && s.owner <= |s.threads|
  }

  lemma GoodAt(limit: nat, s: State, t: nat)
    requires limit > 0 && Good(limit, s) && t < |s.threads|
    ensures OwnerOnly(s, t) && (s.owner == Id(t) ==> Counted(limit, s, s.threads[t]))
  {
  }

  /** A change of thread `t` alone, which stays or becomes the owner, or was not and is not. */
  lemma GoodAfter(limit: nat, before: State, after: State, t: nat)
    requires limit > 0 && Good(limit, before) && t < |before.threads| && |after.threads| == |before.threads|
    requires after.threads == before.threads[t := after.threads[t]] && OwnerOnly(after, t)
    requires after.owner == before.owner || (before.owner == 0 && after.owner == Id(t))
             || (before.owner == Id(t) && after.owner == 0)
    requires after.owner == Id(t) ==> Counted(limit, after, after.threads[t])
    requires after.owner != Id(t) ==> after.count == if after.owner == 0 then 0 else before.count
    ensures Good(limit, after)
  {
    forall u | 0 <= u < |after.threads|
      ensures OwnerOnly(after, u) && (after.owner == Id(u) ==> Counted(limit, after, after.threads[u]))
    {
      GoodAt(limit, before, u);
    }
  }

  /** Counting up and down again wraps around like the depth itself. */
  lemma CountUp(limit: nat, depth: nat)
    requires limit > 0
    ensures Wrap(limit, Wrap(limit, depth) + 1) == Wrap(limit, depth + 1)
    ensures Wrap(limit, Wrap(limit, depth + 1) + limit - 1) == Wrap(limit, depth)
  {
    var q, r := depth / limit, depth % limit;
    assert depth == limit * q + r;
    if r + 1 < limit {
      DivisionIs(depth + 1, limit, q, r + 1);
      DivisionIs(r + 1, limit, 0, r + 1);
      DivisionIs(r + limit, limit, 1, r);
    } else {
      assert limit * (q + 1) == limit * q + limit;
      DivisionIs(depth + 1, limit, q + 1, 0);
      DivisionIs(limit, limit, 1, 0);
      DivisionIs(limit - 1, limit, 0, limit - 1);
    }
  }

  lemma BelowLimit(limit: nat, n: nat)
    requires n <= limit && limit > 0
    ensures Wrap(limit, n) == if n == limit then 0 else n
  {
  }

  lemma OneThreadChanges(limit: nat, s: State, t: nat)
    requires limit > 0 && t < |s.threads|
    ensures var after := Continued(limit, s, t);
            |after.threads| == |s.threads| && after.threads == s.threads[t := after.threads[t]]
  {
  }

  lemma ContinueKeepsGood(limit: nat, s: State, t: nat)
    requires limit > 0 && Good(limit, s) && t < |s.threads|
    requires |Continued(limit, s, t).threads| == |s.threads| && Continued(limit, s, t).threads[t].depth <= limit
    ensures Good(limit, Continued(limit, s, t))
  {
    hide Wrap;
    GoodAt(limit, s, t);
    GoodFacts(limit, s);
    OneThreadChanges(limit, s, t);
    var thread := s.threads[t];
    if thread.place.Raising? {
      CountUp(limit, thread.depth);
    } else if thread.place.Lowering? && thread.depth > 0 {
      CountUp(limit, thread.depth - 1);
    } else if thread.place.Testing? && thread.depth < limit {
      BelowLimit(limit, thread.depth);
    }
    BelowLimit(limit, 0);
    hide Good;
    GoodAfter(limit, s, Continued(limit, s, t), t);
  }

  lemma CallKeepsGood(limit: nat, s: State, t: nat, place: Place)
    requires limit > 0 && Good(limit, s) && t < |s.threads| && s.threads[t].place == Outside
    requires place.Checking? || (place.Releasing? && s.threads[t].depth > 0)
    ensures Good(limit, At(s, t, place))
  {
    GoodAt(limit, s, t);
    GoodFacts(limit, s);
    hide Good;
    GoodAfter(limit, s, At(s, t, place), t);
  }

  lemma StepKeepsGood(limit: nat, s: State, step: Step)
    requires limit > 0 && Good(limit, s)
    requires step.thread < |s.threads| ==> DepthsAtMost(Apply(limit, s, step), limit)
    ensures Good(limit, Apply(limit, s, step))
  {
    hide Wrap;
    var t := step.thread;
    if t < |s.threads| {
      match step.action
      case CallLock => if s.threads[t].place == Outside { CallKeepsGood(limit, s, t, Checking(false)); }
      case CallTryLock => if s.threads[t].place == Outside { CallKeepsGood(limit, s, t, Checking(true)); }
      case CallUnlock =>
        if s.threads[t].place == Outside && s.threads[t].depth > 0 { CallKeepsGood(limit, s, t, Releasing); }
      case Continue =>
        OneThreadChanges(limit, s, t);
        hide Continued, Good;
        assert DepthAtMost(Continued(limit, s, t), t, limit);
        ContinueKeepsGood(limit, s, t);
    }
  }

  predicate DepthAtMost(s: State, t: nat, n: nat) {
    t < |s.threads| ==> s.threads[t].depth <= n
  }

  ghost predicate DepthsAtMost(s: State, n: nat) {
    forall t :: DepthAtMost(s, t, n)
  }

  lemma GoodFacts(limit: nat, s: State)
    requires limit > 0 && Good(limit, s)
    ensures s.owner == 0 ==> s.count == 0
  {
  }

  // ---------------------------------------------------------------- whole runs

  /** No thread has more than `n` acquisitions at any point of the run. */
  ghost predicate NestsAtMost(n: nat, limit: nat, s: State, steps: seq<Step>)
    requires limit > 0
    decreases |steps|
  {
    DepthsAtMost(Execute(limit, s, steps), n) && (steps != [] ==> NestsAtMost(n, limit, s, steps[..|steps| - 1]))
  }

  lemma {:induction false} ReachedIsGood(limit: nat, threads: nat, steps: seq<Step>)
    requires limit > 0 && NestsAtMost(limit, limit, Initial(threads), steps)
    ensures Good(limit, Execute(limit, Initial(threads), steps))
    decreases |steps|
  {
    if steps != [] {
      ReachedIsGood(limit, threads, steps[..|steps| - 1]);
      hide Good, Apply, DepthsAtMost;
      StepKeepsGood(limit, Execute(limit, Initial(threads), steps[..|steps| - 1]), steps[|steps| - 1]);
    }
  }

  /** Two threads never hold the lock at the same time. */
  lemma MutualExclusion(limit: nat, threads: nat, steps: seq<Step>, t: nat, u: nat)
    requires limit > 0 && NestsAtMost(limit, limit, Initial(threads), steps)
    requires var s := Execute(limit, Initial(threads), steps);
             t < |s.threads| && u < |s.threads| && Claims(s.threads[t]) && Claims(s.threads[u])
    ensures t == u
  {
    var s := Execute(limit, Initial(threads), steps);
    ReachedIsGood(limit, threads, steps);
    GoodAt(limit, s, t);
    GoodAt(limit, s, u);
    hide Good, Execute, NestsAtMost, Claims;
  }

  /** When no operation is under way, the owner is the thread whose depth is not zero. */
  ghost predicate OwnerIsHolder(s: State, t: nat)
    requires t < |s.threads|
  {
    s.owner == Id(t) <==> s.threads[t].depth > 0
  }

  /** The count is the owner's nesting depth, or zero when the lock is free. */
  ghost predicate CountTells(s: State, t: nat)
    requires t < |s.threads|
  {
    (s.threads[t].depth > 0 ==> s.count == s.threads[t].depth) && (s.owner == 0 ==> s.count == 0)
  }

  predicate BetweenOperations(s: State) {
    forall u :: 0 <= u < |s.threads| ==> s.threads[u].place == Outside
  }

  lemma CountIsDepth(limit: nat, threads: nat, steps: seq<Step>, t: nat)
    requires limit > 0 && NestsAtMost(limit, limit, Initial(threads), steps)
    requires t < |Execute(limit, Initial(threads), steps).threads|
    requires BetweenOperations(Execute(limit, Initial(threads), steps))
    ensures var s := Execute(limit, Initial(threads), steps);
            OwnerIsHolder(s, t) && (s.threads[t].depth < limit ==> CountTells(s, t))
  {
    var s := Execute(limit, Initial(threads), steps);
    ReachedIsGood(limit, threads, steps);
    GoodAt(limit, s, t);
    GoodFacts(limit, s);
    BelowLimit(limit, 0);
    if s.threads[t].depth <= limit { BelowLimit(limit, s.threads[t].depth); }
    hide Good, Execute, NestsAtMost;
  }

  /** A step lets the lock go only when it ends the last unlock of its owner. */
  lemma OnlyOutermostUnlockReleases(limit: nat, threads: nat, steps: seq<Step>, step: Step)
    requires limit > 0 && NestsAtMost(limit, limit, Initial(threads), steps)
    requires var s := Execute(limit, Initial(threads), steps);
             s.owner != 0 && Apply(limit, s, step).owner != s.owner
    ensures var s := Execute(limit, Initial(threads), steps);
            && step.thread < |s.threads| && s.owner == Id(step.thread)
            && s.threads[step.thread].place == Clearing && s.threads[step.thread].depth == 0
            && Apply(limit, s, step).owner == 0
  {
    var s := Execute(limit, Initial(threads), steps);
    ReachedIsGood(limit, threads, steps);
    hide Good, Execute, NestsAtMost;
    GoodAt(limit, s, step.thread);
  }

  /** An unlock that leaves the owner no acquisition goes on to let the lock go. */
  lemma OutermostUnlockReleases(limit: nat, threads: nat, steps: seq<Step>, t: nat)
    requires limit > 0 && NestsAtMost(limit, limit, Initial(threads), steps)
    requires var s := Execute(limit, Initial(threads), steps);
             t < |s.threads| && s.threads[t].place == Testing
    ensures var s := Execute(limit, Initial(threads), steps);
            Continued(limit, s, t).threads[t].place == if s.threads[t].depth == 0 then Clearing else Outside
  {
    hide *;
    ReachedIsGood(limit, threads, steps);
    TestIsRight(limit, Execute(limit, Initial(threads), steps), t);
  }

  lemma TestIsRight(limit: nat, s: State, t: nat)
    requires limit > 0 && Good(limit, s) && t < |s.threads| && s.threads[t].place == Testing
    ensures Continued(limit, s, t).threads[t].place == if s.threads[t].depth == 0 then Clearing else Outside
  {
    hide Wrap;
    GoodAt(limit, s, t);
    hide Good;
    BelowLimit(limit, s.threads[t].depth);
  }

  /** A thread that has the lock never waits for it. */
  lemma OwnerNeverSpins(limit: nat, threads: nat, steps: seq<Step>, t: nat)
    requires limit > 0 && NestsAtMost(limit, limit, Initial(threads), steps)
    requires var s := Execute(limit, Initial(threads), steps);
             t < |s.threads| && s.threads[t].depth > 0
    ensures !Execute(limit, Initial(threads), steps).threads[t].place.Swapping?
  {
    var s := Execute(limit, Initial(threads), steps);
    ReachedIsGood(limit, threads, steps);
    GoodAt(limit, s, t);
    hide Good, Execute, NestsAtMost;
  }

  // ---------------------------------------------------------------- what an operation does when it runs alone

  /** Thread `t` begins an operation, and goes on with it for `n` steps. */
  function RunAlone(limit: nat, s: State, t: nat, action: Action, n: nat): State
    requires limit > 0
  {
    if n == 0 then Apply(limit, s, Step(t, action))
    else Apply(limit, RunAlone(limit, s, t, action, n - 1), Step(t, Continue))
  }

  lemma RunAloneNext(limit: nat, s: State, t: nat, action: Action, n: nat)
    requires limit > 0
    ensures RunAlone(limit, s, t, action, 0) == Apply(limit, s, Step(t, action))
    ensures RunAlone(limit, s, t, action, n + 1)
         == Apply(limit, RunAlone(limit, s, t, action, n), Step(t, Continue))
  {
    hide Apply;
  }

  /** Thread `t` alone has changed: it has `depth` acquisitions, and the lock has that owner and count. */
  predicate EndsWith(s: State, t: nat, end: State, owner: nat, count: nat, depth: nat) {
    t < |s.threads| && end == State(owner, count, s.threads[t := Thread(Outside, depth)])
  }

  lemma FourSteps(limit: nat, s: State, t: nat, action: Action, a: State, b: State, c: State, d: State, e: State)
    requires limit > 0 && Apply(limit, s, Step(t, action)) == a && Apply(limit, a, Step(t, Continue)) == b
    requires Apply(limit, b, Step(t, Continue)) == c && Apply(limit, c, Step(t, Continue)) == d
    requires Apply(limit, d, Step(t, Continue)) == e
    ensures RunAlone(limit, s, t, action, 4) == e
  {
    hide Apply, RunAlone;
    RunAloneNext(limit, s, t, action, 0);
    RunAloneNext(limit, s, t, action, 1);
    RunAloneNext(limit, s, t, action, 2);
    RunAloneNext(limit, s, t, action, 3);
  }

  /** The state with thread `t` at `place` and `depth`. */
  function Seen(s: State, t: nat, owner: nat, count: nat, place: Place, depth: nat): State
    requires t < |s.threads|
  {
    State(owner, count, s.threads[t := Thread(place, depth)])
  }

  /**
   * lock and try_lock take a lock that is free or the thread's own, once more; a lock of another
   * thread they leave alone, and try_lock gives up while lock keeps spinning.
   */
  lemma LockTakes(limit: nat, threads: nat, steps: seq<Step>, t: nat, try: bool)
    requires limit > 0 && NestsAtMost(limit, limit, Initial(threads), steps)
    requires var s := Execute(limit, Initial(threads), steps);
             t < |s.threads| && s.threads[t].place == Outside && s.threads[t].depth < limit
    ensures var s := Execute(limit, Initial(threads), steps);
            var end := RunAlone(limit, s, t, if try then CallTryLock else CallLock, 4);
            var depth := s.threads[t].depth;
            if s.owner == 0 || s.owner == Id(t)
            then EndsWith(s, t, end, Id(t), if depth + 1 == limit then 0 else depth + 1, depth + 1)
            else if try then EndsWith(s, t, end, s.owner, s.count, depth)
            else end == Seen(s, t, s.owner, s.count, Swapping(false), depth)
  {
    var s := Execute(limit, Initial(threads), steps);
    ReachedIsGood(limit, threads, steps);
    hide Execute, NestsAtMost;
    TakesFrom(limit, s, t, try);
  }

  lemma TakesFrom(limit: nat, s: State, t: nat, try: bool)
    requires limit > 0 && Good(limit, s)
    requires t < |s.threads| && s.threads[t].place == Outside && s.threads[t].depth < limit
    ensures var end := RunAlone(limit, s, t, if try then CallTryLock else CallLock, 4);
            var depth := s.threads[t].depth;
            if s.owner == 0 || s.owner == Id(t)
            then EndsWith(s, t, end, Id(t), if depth + 1 == limit then 0 else depth + 1, depth + 1)
            else if try then EndsWith(s, t, end, s.owner, s.count, depth)
            else end == Seen(s, t, s.owner, s.count, Swapping(false), depth)
  {
    GoodAt(limit, s, t);
    GoodFacts(limit, s);
    hide Good, RunAlone;
    var action, depth := if try then CallTryLock else CallLock, s.threads[t].depth;
    CountUp(limit, depth);
    BelowLimit(limit, depth);
    BelowLimit(limit, depth + 1);
    hide Wrap;
    var checking := Seen(s, t, s.owner, s.count, Checking(try), depth);
    if s.owner == Id(t) {
      var taken := Seen(s, t, Id(t), Wrap(limit, depth + 1), Outside, depth + 1);
      FourSteps(limit, s, t, action, checking, Seen(s, t, Id(t), s.count, Won, depth),
                Seen(s, t, Id(t), s.count, Raising(s.count), depth), taken, taken);
    } else if s.owner == 0 {
      FourSteps(limit, s, t, action, checking, Seen(s, t, 0, 0, Swapping(try), 0), Seen(s, t, Id(t), 0, Won, 0),
                Seen(s, t, Id(t), 0, Raising(0), 0), Seen(s, t, Id(t), Wrap(limit, 1), Outside, 1));
    } else {
      var swapping := Seen(s, t, s.owner, s.count, Swapping(try), depth);
      var end := if try then Seen(s, t, s.owner, s.count, Outside, depth) else swapping;
      FourSteps(limit, s, t, action, checking, swapping, end, end, end);
    }
  }

  /** unlock takes one acquisition back, and with the last one lets the lock go. */
  lemma UnlockGivesBack(limit: nat, threads: nat, steps: seq<Step>, t: nat)
    requires limit > 0 && NestsAtMost(limit, limit, Initial(threads), steps)
    requires var s := Execute(limit, Initial(threads), steps);
             t < |s.threads| && s.threads[t].place == Outside && s.threads[t].depth > 0
    ensures var s := Execute(limit, Initial(threads), steps);
            var depth := s.threads[t].depth - 1;
            EndsWith(s, t, RunAlone(limit, s, t, CallUnlock, 4), if depth == 0 then 0 else Id(t), depth, depth)
  {
    var s := Execute(limit, Initial(threads), steps);
    ReachedIsGood(limit, threads, steps);
    hide Execute, NestsAtMost;
    GivesBackFrom(limit, s, t);
  }

  lemma GivesBackFrom(limit: nat, s: State, t: nat)
    requires limit > 0 && Good(limit, s)
    requires t < |s.threads| && s.threads[t].place == Outside && s.threads[t].depth > 0
    ensures var depth := s.threads[t].depth - 1;
            EndsWith(s, t, RunAlone(limit, s, t, CallUnlock, 4), if depth == 0 then 0 else Id(t), depth, depth)
  {
    GoodAt(limit, s, t);
    hide Good, RunAlone;
    var depth: nat := s.threads[t].depth - 1;
    CountUp(limit, depth);
    BelowLimit(limit, depth);
    hide Wrap;
    var testing := Seen(s, t, Id(t), depth, Testing, depth);
    var end := Seen(s, t, if depth == 0 then 0 else Id(t), depth, Outside, depth);
    FourSteps(limit, s, t, CallUnlock, Seen(s, t, Id(t), s.count, Releasing, depth + 1),
              Seen(s, t, Id(t), s.count, Lowering(s.count), depth + 1), testing,
              if depth == 0 then Seen(s, t, Id(t), 0, Clearing, 0) else end, end);
  }

  // ---------------------------------------------------------------- when the count overflows

  /** Thread 0 has `depth` acquisitions and is at `place`; thread 1 has done nothing. */
  function Alone(owner: nat, count: nat, place: Place, depth: nat): State {
    State(owner, count, [Thread(place, depth), Thread(Outside, 0)])
  }

  /** The state between operations, after `depth` acquisitions by thread 0. */
  function Held(limit: nat, depth: nat): State
    requires limit > 0
  {
    Alone(if depth == 0 then 0 else 1, Wrap(limit, depth), Outside, depth)
  }

  /** `steps` is a run of two threads that leads to `s` and nests at most `n` deep. */
  ghost predicate Leads(n: nat, limit: nat, steps: seq<Step>, s: State)
    requires limit > 0
  {
    Execute(limit, Initial(2), steps) == s && NestsAtMost(n, limit, Initial(2), steps)
  }

  /** One step more. */
  lemma Onward(n: nat, limit: nat, steps: seq<Step>, s: State, step: Step, next: State) returns (more: seq<Step>)
    requires limit > 0 && Leads(n, limit, steps, s) && Apply(limit, s, step) == next && DepthsAtMost(next, n)
    ensures Leads(n, limit, more, next)
  {
    more := steps + [step];
    assert more[..|steps|] == steps;
    hide Apply, DepthsAtMost;
  }

  lemma StartAlone(n: nat, limit: nat)
    requires limit > 0
    ensures Leads(n, limit, [], Held(limit, 0))
  {
    BelowLimit(limit, 0);
  }

  /** Thread 0 takes the lock once more. */
  lemma LockOnce(n: nat, limit: nat, steps: seq<Step>, depth: nat) returns (more: seq<Step>)
    requires limit > 0 && Leads(n, limit, steps, Held(limit, depth)) && depth < n
    ensures Leads(n, limit, more, Held(limit, depth + 1))
  {
    hide Wrap;
    hide Leads;
    CountUp(limit, depth);
    BelowLimit(limit, 0);
    var owner, count := if depth == 0 then 0 else 1, Wrap(limit, depth);
    more := Onward(n, limit, steps, Held(limit, depth), Step(0, CallLock), Alone(owner, count, Checking(false), depth));
    if depth == 0 {
      more := Onward(n, limit, more, Alone(0, 0, Checking(false), 0), Step(0, Continue),
                     Alone(0, 0, Swapping(false), 0));
      more := Onward(n, limit, more, Alone(0, 0, Swapping(false), 0), Step(0, Continue), Alone(1, 0, Won, 0));
    } else {
      more := Onward(n, limit, more, Alone(1, count, Checking(false), depth), Step(0, Continue),
                     Alone(1, count, Won, depth));
    }
    more := Onward(n, limit, more, Alone(1, count, Won, depth), Step(0, Continue),
                   Alone(1, count, Raising(count), depth));
    more := Onward(n, limit, more, Alone(1, count, Raising(count), depth), Step(0, Continue), Held(limit, depth + 1));
  }

  lemma {:induction false} NestedLocks(n: nat, limit: nat, depth: nat) returns (steps: seq<Step>)
    requires limit > 0 && depth <= n
    ensures Leads(n, limit, steps, Held(limit, depth))
  {
    hide *;
    if depth == 0 {
      steps := [];
      StartAlone(n, limit);
    } else {
      steps := NestedLocks(n, limit, depth - 1);
      steps := LockOnce(n, limit, steps, depth - 1);
    }
  }

  /** With one acquisition more than the count can hold, an unlock reads zero while the lock is still held. */
  lemma OverflowReadsZero(limit: nat) returns (steps: seq<Step>)
    requires limit > 0
    ensures Leads(limit + 1, limit, steps, Alone(1, 0, Testing, limit))
  {
    hide Wrap;
    var n, count := limit + 1, Wrap(limit, limit + 1);
    hide Leads;
    CountUp(limit, limit);
    BelowLimit(limit, limit);
    steps := NestedLocks(n, limit, n);
    steps := Onward(n, limit, steps, Held(limit, n), Step(0, CallUnlock), Alone(1, count, Releasing, n));
    steps := Onward(n, limit, steps, Alone(1, count, Releasing, n), Step(0, Continue),
                    Alone(1, count, Lowering(count), n));
    steps := Onward(n, limit, steps, Alone(1, count, Lowering(count), n), Step(0, Continue),
                    Alone(1, 0, Testing, limit));
  }

  /** So it goes on to let the lock go. */
  lemma OverflowReleasesEarly(limit: nat) returns (steps: seq<Step>)
    requires limit > 0
    ensures Leads(limit + 1, limit, steps, Alone(1, 0, Clearing, limit))
    ensures Apply(limit, Alone(1, 0, Clearing, limit), Step(0, Continue)) == Alone(0, 0, Outside, limit)
  {
    hide Leads;
    steps := OverflowReadsZero(limit);
    steps := Onward(limit + 1, limit, steps, Alone(1, 0, Testing, limit), Step(0, Continue),
                    Alone(1, 0, Clearing, limit));
  }

  /** Thread 0 has `limit` acquisitions, and thread 1 has just won the lock. */
  function BothHold(limit: nat, place: Place, owner: nat): State {
    State(owner, 0, [Thread(Outside, limit), Thread(place, 0)])
  }

  /** After that another thread takes the lock, so that two threads hold it. */
  lemma TwoHolders(limit: nat) returns (steps: seq<Step>)
    requires limit > 0
    ensures Leads(limit + 1, limit, steps, BothHold(limit, Won, 2))
  {
    var n := limit + 1;
    hide Leads;
    steps := OverflowReleasesEarly(limit);
    steps := Onward(n, limit, steps, Alone(1, 0, Clearing, limit), Step(0, Continue), Alone(0, 0, Outside, limit));
    steps := Onward(n, limit, steps, Alone(0, 0, Outside, limit), Step(1, CallLock),
                    BothHold(limit, Checking(false), 0));
    steps := Onward(n, limit, steps, BothHold(limit, Checking(false), 0), Step(1, Continue),
                    BothHold(limit, Swapping(false), 0));
    steps := Onward(n, limit, steps, BothHold(limit, Swapping(false), 0), Step(1, Continue), BothHold(limit, Won, 2));
  }

  // ---------------------------------------------------------------- the exact conditions

  lemma {:induction false} NestsLess(n: nat, k: nat, limit: nat, s: State, steps: seq<Step>)
    requires limit > 0 && n <= k && NestsAtMost(n, limit, s, steps)
    ensures NestsAtMost(k, limit, s, steps)
    decreases |steps|
  {
    if steps != [] {
      NestsLess(n, k, limit, s, steps[..|steps| - 1]);
    }
    forall t ensures DepthAtMost(Execute(limit, s, steps), t, k) {
      assert DepthAtMost(Execute(limit, s, steps), t, n);
    }
  }

  /** In runs that nest at most `n` deep, two threads never hold the lock at the same time. */
  ghost predicate Excludes(limit: nat, n: nat)
    requires limit > 0
  {
    forall threads: nat, steps: seq<Step>, t: nat, u: nat ::
      NestsAtMost(n, limit, Initial(threads), steps) && BothClaim(Execute(limit, Initial(threads), steps), t, u) ==>
        t == u
  }

  predicate BothClaim(s: State, t: nat, u: nat) {
    t < |s.threads| && u < |s.threads| && Claims(s.threads[t]) && Claims(s.threads[u])
  }

  /** In runs that nest at most `n` deep, the count between operations is the owner's depth. */
  ghost predicate Counts(limit: nat, n: nat)
    requires limit > 0
  {
    forall threads: nat, steps: seq<Step>, t: nat ::
      NestsAtMost(n, limit, Initial(threads), steps) && t < |Execute(limit, Initial(threads), steps).threads|
      && BetweenOperations(Execute(limit, Initial(threads), steps)) ==>
        CountTells(Execute(limit, Initial(threads), steps), t)
  }

  /** The lock excludes exactly as long as nesting stays within the limit of the count. */
  lemma ExcludesUpToLimit(limit: nat, n: nat)
    requires limit > 0
    ensures Excludes(limit, n) <==> n <= limit
  {
    if n <= limit {
      forall threads: nat, steps: seq<Step>, t: nat, u: nat |
        NestsAtMost(n, limit, Initial(threads), steps) && BothClaim(Execute(limit, Initial(threads), steps), t, u)
        ensures t == u
      {
        NestsLess(n, limit, limit, Initial(threads), steps);
        MutualExclusion(limit, threads, steps, t, u);
      }
    } else {
      var steps := TwoHolders(limit);
      NestsLess(limit + 1, n, limit, Initial(2), steps);
      assert BothClaim(Execute(limit, Initial(2), steps), 0, 1);
      hide NestsAtMost, Execute;
    }
  }

  /** The count is the depth exactly as long as nesting stays below the limit. */
  lemma CountsBelowLimit(limit: nat, n: nat)
    requires limit > 0
    ensures Counts(limit, n) <==> n < limit
  {
    if n < limit {
      forall threads: nat, steps: seq<Step>, t: nat |
        NestsAtMost(n, limit, Initial(threads), steps) && t < |Execute(limit, Initial(threads), steps).threads|
        && BetweenOperations(Execute(limit, Initial(threads), steps))
        ensures CountTells(Execute(limit, Initial(threads), steps), t)
      {
        NestsLess(n, limit, limit, Initial(threads), steps);
        CountIsDepth(limit, threads, steps, t);
        assert DepthAtMost(Execute(limit, Initial(threads), steps), t, n);
      }
    } else {
      var steps := NestedLocks(limit, limit, limit);
      NestsLess(limit, n, limit, Initial(2), steps);
      BelowLimit(limit, limit);
      assert Execute(limit, Initial(2), steps) == Held(limit, limit);
      assert !CountTells(Held(limit, limit), 0);
      hide NestsAtMost, Execute;
    }
  }

  /** In runs that nest at most `n` deep, an unlock goes on to release exactly when it leaves no acquisition. */
  ghost predicate Releases(limit: nat, n: nat)
    requires limit > 0
  {
    forall threads: nat, steps: seq<Step>, t: nat ::
      NestsAtMost(n, limit, Initial(threads), steps) ==> TestsRightly(limit, Execute(limit, Initial(threads), steps), t)
  }

  predicate TestsRightly(limit: nat, s: State, t: nat)
    requires limit > 0
  {
    t < |s.threads| && s.threads[t].place == Testing ==>
      Continued(limit, s, t).threads[t].place == if s.threads[t].depth == 0 then Clearing else Outside
  }

  lemma ReleasesUpToLimit(limit: nat, n: nat)
    requires limit > 0
    ensures Releases(limit, n) <==> n <= limit
  {
    if n <= limit {
      forall threads: nat, steps: seq<Step>, t: nat | NestsAtMost(n, limit, Initial(threads), steps)
        ensures TestsRightly(limit, Execute(limit, Initial(threads), steps), t)
      {
        NestsLess(n, limit, limit, Initial(threads), steps);
        var s := Execute(limit, Initial(threads), steps);
        if t < |s.threads| && s.threads[t].place == Testing { OutermostUnlockReleases(limit, threads, steps, t); }
      }
    } else {
      var steps := OverflowReadsZero(limit);
      NestsLess(limit + 1, n, limit, Initial(2), steps);
      assert !TestsRightly(limit, Alone(1, 0, Testing, limit), 0);
      hide NestsAtMost, Execute, TestsRightly;
    }
  }

  /** In runs that nest at most `n` deep, only the end of a last unlock takes the lock from its owner. */
  ghost predicate Keeps(limit: nat, n: nat)
    requires limit > 0
  {
    forall threads: nat, steps: seq<Step>, step: Step ::
      NestsAtMost(n, limit, Initial(threads), steps) ==>
        LosesRightly(limit, Execute(limit, Initial(threads), steps), step)
  }

  predicate LosesRightly(limit: nat, s: State, step: Step)
    requires limit > 0
  {
    s.owner != 0 && Apply(limit, s, step).owner != s.owner ==>
      step.thread < |s.threads| && s.owner == Id(step.thread) && s.threads[step.thread] == Thread(Clearing, 0)
  }

  lemma KeepsUpToLimit(limit: nat, n: nat)
    requires limit > 0
    ensures Keeps(limit, n) <==> n <= limit
  {
    if n <= limit {
      forall threads: nat, steps: seq<Step>, step: Step | NestsAtMost(n, limit, Initial(threads), steps)
        ensures LosesRightly(limit, Execute(limit, Initial(threads), steps), step)
      {
        NestsLess(n, limit, limit, Initial(threads), steps);
        var s := Execute(limit, Initial(threads), steps);
        if s.owner != 0 && Apply(limit, s, step).owner != s.owner {
          OnlyOutermostUnlockReleases(limit, threads, steps, step);
        }
      }
    } else {
      var steps := OverflowReleasesEarly(limit);
      NestsLess(limit + 1, n, limit, Initial(2), steps);
      assert !LosesRightly(limit, Alone(1, 0, Clearing, limit), Step(0, Continue));
      hide NestsAtMost, Execute, LosesRightly;
    }
  }

  /** In runs that nest at most `n` deep, a thread that has the lock never waits for it. */
  ghost predicate NeverWaits(limit: nat, n: nat)
    requires limit > 0
  {
    forall threads: nat, steps: seq<Step>, t: nat ::
      NestsAtMost(n, limit, Initial(threads), steps) ==> !SpinsOwning(Execute(limit, Initial(threads), steps), t)
  }

  predicate SpinsOwning(s: State, t: nat) {
    t < |s.threads| && s.threads[t].depth > 0 && s.threads[t].place.Swapping?
  }

  /** With more, a thread spins for a lock that it has never let go. */
  lemma NeverWaitsUpToLimit(limit: nat, n: nat)
    requires limit > 0
    ensures NeverWaits(limit, n) <==> n <= limit
  {
    if n <= limit {
      forall threads: nat, steps: seq<Step>, t: nat | NestsAtMost(n, limit, Initial(threads), steps)
        ensures !SpinsOwning(Execute(limit, Initial(threads), steps), t)
      {
        NestsLess(n, limit, limit, Initial(threads), steps);
        if SpinsOwning(Execute(limit, Initial(threads), steps), t) { OwnerNeverSpins(limit, threads, steps, t); }
      }
    } else {
      var steps := TwoHolders(limit);
      steps := SpinningHolder(limit, steps);
      NestsLess(limit + 1, n, limit, Initial(2), steps);
      assert SpinsOwning(Execute(limit, Initial(2), steps), 0);
      hide NestsAtMost, Execute;
    }
  }

  lemma SpinningHolder(limit: nat, steps: seq<Step>) returns (more: seq<Step>)
    requires limit > 0 && Leads(limit + 1, limit, steps, BothHold(limit, Won, 2))
    ensures Leads(limit + 1, limit, more, State(2, 0, [Thread(Swapping(false), limit), Thread(Won, 0)]))
  {
    hide Leads;
    var s1 := State(2, 0, [Thread(Checking(false), limit), Thread(Won, 0)]);
    more := Onward(limit + 1, limit, steps, BothHold(limit, Won, 2), Step(0, CallLock), s1);
    more := Onward(limit + 1, limit, more, s1, Step(0, Continue),
                   State(2, 0, [Thread(Swapping(false), limit), Thread(Won, 0)]));
  }
}

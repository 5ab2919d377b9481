/**
 * The size counters of a worker's queue while several threads are in the middle of its
 * operations: each enqueue, dequeue, load, add and subtract is a step of its own.
 */
module CountedQueues {
  import opened Basics
  import opened JobTypes
  import opened WorkerQueues

  datatype Cell = Local(p: Priority) | Stealable(p: Priority)

  /** Where a thread is inside an operation. */
  datatype Doing =
    | Idle
    | Enqueued(cell: Cell, n: nat)          // has still to add n
    | Dequeued(cell: Cell, n: nat)          // has still to subtract n
    | MayMove(p: Priority)                  // read a local count above the threshold
    | Moving(p: Priority, batch: seq<Job>)  // holds a batch, not yet in the stealable queue
    | Moved(p: Priority, n: nat)            // has still to subtract n locally and to add n to the stealable count
    | Settling(p: Priority, n: nat)         // has still to add n to the stealable count
    | MaySteal(p: Priority)                 // read a stealable count above zero

  datatype State = State(queues: map<Cell, seq<Job>>, counts: map<Cell, nat>, doing: seq<Doing>)

  datatype Action =
    | Submit(p: Priority, jobs: seq<Job>)
    | Pop(p: Priority, max: nat)
    | LookToMove(p: Priority)
    | LookToSteal(p: Priority)
    | Steal(max: nat)
    | Continue

  datatype Step = Step(thread: nat, action: Action)

  function QueueOf(s: State, c: Cell): seq<Job> {
    if c in s.queues then s.queues[c] else []
  }

  function CountOf(s: State, c: Cell): nat {
    if c in s.counts then s.counts[c] else 0
  }

  function WithQueue(s: State, c: Cell, q: seq<Job>): State {
    s.(queues := s.queues[c := q])
  }

  /** fetch_add or fetch_sub on a 64-bit word. */
  function WithChange(s: State, c: Cell, change: int): State {
    s.(counts := s.counts[c := Wrap(CountOf(s, c) + change)])
  }

  function Now(s: State, t: nat, d: Doing): State
    requires t < |s.doing|
  {
    s.(doing := s.doing[t := d])
  }

  /** try_dequeue_bulk: the first `max` jobs, with the subtraction still to come. */
  function Take(s: State, t: nat, c: Cell, max: nat): State
    requires t < |s.doing|
  {
    var n := Min(max, |QueueOf(s, c)|);
    Now(WithQueue(s, c, QueueOf(s, c)[n..]), t, Dequeued(c, n))
  }

  /** The next step of an operation that has begun. */
  function Continued(s: State, t: nat): State
    requires t < |s.doing|
  {
    match s.doing[t]
    case Enqueued(c, n) => Now(WithChange(s, c, n), t, Idle)
    case Dequeued(c, n) => Now(WithChange(s, c, 0 - n), t, Idle)
    case MayMove(p) =>
      var q := QueueOf(s, Local(p));
      var n := Min(MOVE_COUNT, |q|);
      if n == 0 then Now(s, t, Idle) else Now(WithQueue(s, Local(p), q[n..]), t, Moving(p, q[..n]))
    case Moving(p, batch) =>
      Now(WithQueue(s, Stealable(p), QueueOf(s, Stealable(p)) + batch), t, Moved(p, |batch|))
    case Moved(p, n) => Now(WithChange(s, Local(p), 0 - n), t, Settling(p, n))
    case Settling(p, n) => Now(WithChange(s, Stealable(p), n), t, Idle)
    case _ => s
  }

  /** A step that its thread cannot take changes nothing. */
  function Apply(s: State, step: Step): State {
    var t := step.thread;
    if t >= |s.doing| then s
    else
      match step.action
      case Submit(p, jobs) =>
        if s.doing[t] != Idle then s
        else Now(WithQueue(s, Local(p), QueueOf(s, Local(p)) + jobs), t, Enqueued(Local(p), |jobs|))
      case Pop(p, max) => if s.doing[t] != Idle then s else Take(s, t, Local(p), max)
      case LookToMove(p) =>
        if s.doing[t] != Idle || CountOf(s, Local(p)) <= THRESHOLD then s else Now(s, t, MayMove(p))
      case LookToSteal(p) =>
        if s.doing[t] != Idle || CountOf(s, Stealable(p)) == 0 then s else Now(s, t, MaySteal(p))
      case Steal(max) =>
        if !s.doing[t].MaySteal? then s
        else if Min(max, |QueueOf(s, Stealable(s.doing[t].p))|) == 0 then Now(s, t, Idle)
        else Take(s, t, Stealable(s.doing[t].p), max)
      case Continue => Continued(s, t)
  }

  function Initial(threads: nat): State {
    State(map[], map[], seq(threads, _ => Idle))
  }

  function Execute(s: State, steps: seq<Step>): State
    decreases |steps|
  {
    if steps == [] then s else Apply(Execute(s, steps[..|steps| - 1]), steps[|steps| - 1])
  }

  // ---------------------------------------------------------------- what is in flight

  /** What a thread has still to subtract from a count, less what it has still to add to it. */
  function Owed(d: Doing, c: Cell): int {
    match d
    case Enqueued(cell, n) => if cell == c then 0 - n else 0
    case Dequeued(cell, n) => if cell == c then n else 0
    case Moving(p, batch) => if c == Local(p) then |batch| else 0
    case Moved(p, n) => if c == Local(p) then n else if c == Stealable(p) then 0 - n else 0
    case Settling(p, n) => if c == Stealable(p) then 0 - n else 0
    case _ => 0
  }

  function InFlight(doing: seq<Doing>, c: Cell): int {
    if doing == [] then 0 else Owed(doing[0], c) + InFlight(doing[1..], c)
  }

  lemma {:induction false} InFlightAfter(doing: seq<Doing>, t: nat, d: Doing, c: Cell)
    requires t < |doing|
    ensures InFlight(doing[t := d], c) == InFlight(doing, c) - Owed(doing[t], c) + Owed(d, c)
  {
    if t == 0 {
      assert doing[t := d][1..] == doing[1..];
    } else {
      InFlightAfter(doing[1..], t - 1, d, c);
      assert doing[t := d][1..] == doing[1..][t - 1 := d];
    }
  }

  lemma {:induction false} NoneInFlight(doing: seq<Doing>, c: Cell)
    requires forall d :: d in doing ==> Owed(d, c) == 0
    ensures InFlight(doing, c) == 0
  {
    if doing != [] {
      NoneInFlight(doing[1..], c);
    }
  }

  predicate Balanced(s: State, c: Cell) {
    CountOf(s, c) == Wrap(|QueueOf(s, c)| + InFlight(s.doing, c))
  }

  /** What a queue or a count gains, the thread comes to owe. */
  lemma BalancedAfter(before: State, after: State, t: nat, d: Doing, c: Cell, change: int)
    requires Balanced(before, c) && t < |before.doing| && after.doing == before.doing[t := d]
    requires CountOf(after, c) == Wrap(CountOf(before, c) + change)
    requires |QueueOf(after, c)| + Owed(d, c) == |QueueOf(before, c)| + Owed(before.doing[t], c) + change
    ensures Balanced(after, c)
  {
    InFlightAfter(before.doing, t, d, c);
    WrapTwice(|QueueOf(before, c)| + InFlight(before.doing, c), change);
    hide Wrap, InFlight, QueueOf, CountOf, Owed;
  }

  lemma BalancedIsWord(s: State, c: Cell)
    requires Balanced(s, c)
    ensures CountOf(s, c) == Wrap(CountOf(s, c))
  {
  }

  /** What the next step of an operation adds to count `c`. */
  function Change(d: Doing, c: Cell): int {
    match d
    case Enqueued(cell, n) => if cell == c then n else 0
    case Dequeued(cell, n) => if cell == c then 0 - n else 0
    case Moved(p, n) => if c == Local(p) then 0 - n else 0
    case Settling(p, n) => if c == Stealable(p) then n else 0
    case _ => 0
  }

  lemma CountAfterContinue(s: State, t: nat, c: Cell)
    requires t < |s.doing| && CountOf(s, c) == Wrap(CountOf(s, c))
    ensures CountOf(Continued(s, t), c) == Wrap(CountOf(s, c) + Change(s.doing[t], c))
  {
    hide Wrap;
  }

  lemma OneThreadContinues(s: State, t: nat)
    requires t < |s.doing|
    ensures var after := Continued(s, t);
            |after.doing| == |s.doing| && after.doing == s.doing[t := after.doing[t]]
  {
    hide Wrap, CountOf, QueueOf;
  }

  lemma LengthAfterContinue(s: State, t: nat, c: Cell)
    requires t < |s.doing|
    ensures var after := Continued(s, t);
            && |after.doing| == |s.doing|
            && |QueueOf(after, c)| + Owed(after.doing[t], c)
            == |QueueOf(s, c)| + Owed(s.doing[t], c) + Change(s.doing[t], c)
  {
    hide Wrap, CountOf;
    match s.doing[t]
    case Enqueued(_, _) =>
    case Dequeued(_, _) =>
    case MayMove(_) =>
    case Moving(_, _) =>
    case Moved(_, _) =>
    case Settling(_, _) =>
    case _ =>
  }

  lemma ContinueKeepsBalance(s: State, t: nat, c: Cell)
    requires t < |s.doing| && Balanced(s, c)
    ensures Balanced(Continued(s, t), c)
  {
    BalancedIsWord(s, c);
    CountAfterContinue(s, t, c);
    LengthAfterContinue(s, t, c);
    OneThreadContinues(s, t);
    hide *;
    BalancedAfter(s, Continued(s, t), t, Continued(s, t).doing[t], c, Change(s.doing[t], c));
  }

  /** Starting an operation changes no count; what leaves or joins a queue is owed. */
  lemma CallOwes(s: State, step: Step, c: Cell)
    requires !step.action.Continue? && step.thread < |s.doing|
    ensures var after := Apply(s, step);
            && |after.doing| == |s.doing| && after.doing == s.doing[step.thread := after.doing[step.thread]]
            && CountOf(after, c) == CountOf(s, c)
            && |QueueOf(after, c)| + Owed(after.doing[step.thread], c)
            == |QueueOf(s, c)| + Owed(s.doing[step.thread], c)
  {
    match step.action
    case Submit(_, _) =>
    case Pop(_, _) =>
    case LookToMove(_) =>
    case LookToSteal(_) =>
    case Steal(_) =>
  }

  lemma StepKeepsBalance(s: State, step: Step, c: Cell)
    requires Balanced(s, c)
    ensures Balanced(Apply(s, step), c)
  {
    if step.thread < |s.doing| {
      if step.action.Continue? {
        ContinueKeepsBalance(s, step.thread, c);
      } else {
        BalancedIsWord(s, c);
        CallOwes(s, step, c);
        hide *;
        BalancedAfter(s, Apply(s, step), step.thread, Apply(s, step).doing[step.thread], c, 0);
      }
    }
  }

  /**
   * At every step of every run: a count is the length of its queue, less what has been
   * enqueued but not added, plus what has been dequeued but not subtracted, modulo 2^64.
   */
  lemma {:induction false} CountsFollowLengths(threads: nat, steps: seq<Step>, c: Cell)
    ensures var s := Execute(Initial(threads), steps);
            CountOf(s, c) == Wrap(|QueueOf(s, c)| + InFlight(s.doing, c))
    decreases |steps|
  {
    hide Apply;
    if steps == [] {
      NoneInFlight(Initial(threads).doing, c);
    } else {
      CountsFollowLengths(threads, steps[..|steps| - 1], c);
      StepKeepsBalance(Execute(Initial(threads), steps[..|steps| - 1]), steps[|steps| - 1], c);
      hide Initial, Wrap, InFlight, QueueOf, CountOf;
    }
  }

  lemma QuietCountTellsLength(s: State, c: Cell)
    requires Balanced(s, c) && |QueueOf(s, c)| < WORD && InFlight(s.doing, c) == 0
    ensures CountOf(s, c) == |QueueOf(s, c)|
  {
  }

  /** With no add or subtract outstanding, a thief passes over a queue only when it is empty. */
  lemma GuardSkipsOnlyEmptyQueues(threads: nat, steps: seq<Step>, p: Priority)
    requires var s := Execute(Initial(threads), steps);
             |QueueOf(s, Stealable(p))| < WORD && forall d :: d in s.doing ==> Owed(d, Stealable(p)) == 0
    ensures var s := Execute(Initial(threads), steps);
            CountOf(s, Stealable(p)) == 0 <==> QueueOf(s, Stealable(p)) == []
  {
    hide Apply, Execute, Initial, Wrap, InFlight, QueueOf, CountOf, Owed;
    var s := Execute(Initial(threads), steps);
    CountsFollowLengths(threads, steps, Stealable(p));
    NoneInFlight(s.doing, Stealable(p));
    QuietCountTellsLength(s, Stealable(p));
  }

  /** In the middle of operations a count can be far off: here it wraps around below zero. */
  lemma CountCanWrap(threads: nat, p: Priority, j: Job)
    requires threads >= 2
    ensures var run := [Step(0, Submit(p, [j])), Step(1, Pop(p, 1)), Step(1, Continue)];
            var s := Execute(Initial(threads), run);
            QueueOf(s, Local(p)) == [] && CountOf(s, Local(p)) == WORD - 1
  {
    var s0 := Initial(threads);
    var s1 := Apply(s0, Step(0, Submit(p, [j])));
    var s2 := Apply(s1, Step(1, Pop(p, 1)));
    var s3 := Apply(s2, Step(1, Continue));
    ThreeSteps(s0, Step(0, Submit(p, [j])), Step(1, Pop(p, 1)), Step(1, Continue));
  }

  lemma ThreeSteps(s: State, a: Step, b: Step, c: Step)
    ensures Execute(s, [a, b, c]) == Apply(Apply(Apply(s, a), b), c)
  {
    hide Apply;
    OneMore(s, [], a);
    OneMore(s, [a], b);
    OneMore(s, [a, b], c);
    assert [] + [a] == [a] && [a] + [b] == [a, b] && [a, b] + [c] == [a, b, c];
  }

  lemma OneMore(s: State, steps: seq<Step>, step: Step)
    ensures Execute(s, steps + [step]) == Apply(Execute(s, steps), step)
  {
    hide Apply;
    assert (steps + [step])[..|steps|] == steps;
  }

  // ---------------------------------------------------------------- what the operations do to the queues

  /** The queue of `c` after its first `n` jobs have left it and `more` have joined it at the end. */
  ghost predicate Became(s: State, after: State, c: Cell, n: nat, more: seq<Job>) {
    && n <= |QueueOf(s, c)| && QueueOf(after, c) == QueueOf(s, c)[n..] + more
    && forall d: Cell :: d != c ==> QueueOf(after, d) == QueueOf(s, d)
  }

  ghost predicate NoQueueChanged(s: State, after: State) {
    forall d: Cell :: QueueOf(after, d) == QueueOf(s, d)
  }

  ghost predicate NoCountChanged(s: State, after: State) {
    forall d: Cell :: CountOf(after, d) == CountOf(s, d)
  }

  /** A submission joins its batch at the end of the local queue, and counts it afterwards. */
  lemma SubmitThenCounts(s: State, t: nat, p: Priority, jobs: seq<Job>)
    requires t < |s.doing| && s.doing[t] == Idle
    ensures var middle := Apply(s, Step(t, Submit(p, jobs)));
            var after := Apply(middle, Step(t, Continue));
            && Became(s, middle, Local(p), 0, jobs) && NoCountChanged(s, middle)
            && NoQueueChanged(middle, after) && after.doing == s.doing
            && CountOf(after, Local(p)) == (CountOf(s, Local(p)) + |jobs|) % 18446744073709551616
            && forall d: Cell :: d != Local(p) ==> CountOf(after, d) == CountOf(s, d)
  {
  }

  /** A pop takes the first jobs of the local queue, and counts them out afterwards. */
  lemma PopThenCounts(s: State, t: nat, p: Priority, max: nat)
    requires t < |s.doing| && s.doing[t] == Idle
    ensures var n := if max < |QueueOf(s, Local(p))| then max else |QueueOf(s, Local(p))|;
            var middle := Apply(s, Step(t, Pop(p, max)));
            var after := Apply(middle, Step(t, Continue));
            && Became(s, middle, Local(p), n, []) && NoCountChanged(s, middle)
            && NoQueueChanged(middle, after) && after.doing == s.doing
            && CountOf(after, Local(p)) == (CountOf(s, Local(p)) - n) % 18446744073709551616
            && forall d: Cell :: d != Local(p) ==> CountOf(after, d) == CountOf(s, d)
  {
  }

  /** A thief that reads a count above zero takes the first jobs of the stealable queue, and counts them out. */
  lemma StealThenCounts(s: State, t: nat, p: Priority, max: nat)
    requires t < |s.doing| && s.doing[t] == Idle && CountOf(s, Stealable(p)) > 0
    ensures var n := if max < |QueueOf(s, Stealable(p))| then max else |QueueOf(s, Stealable(p))|;
            var looked := Apply(s, Step(t, LookToSteal(p)));
            var middle := Apply(looked, Step(t, Steal(max)));
            var after := Apply(middle, Step(t, Continue));
            && Became(s, middle, Stealable(p), n, []) && NoCountChanged(s, middle)
            && NoQueueChanged(middle, after) && after.doing == s.doing
            && CountOf(after, Stealable(p)) == (if n == 0 then CountOf(s, Stealable(p))
                                                else (CountOf(s, Stealable(p)) - n) % 18446744073709551616)
            && forall d: Cell :: d != Stealable(p) ==> CountOf(after, d) == CountOf(s, d)
  {
    var looked := Apply(s, Step(t, LookToSteal(p)));
    assert looked == s.(doing := s.doing[t := MaySteal(p)]);
    var middle := Apply(looked, Step(t, Steal(max)));
    var n := if max < |QueueOf(s, Stealable(p))| then max else |QueueOf(s, Stealable(p))|;
    if n > 0 {
      assert middle == Take(looked, t, Stealable(p), max);
      assert middle.doing == s.doing[t := Dequeued(Stealable(p), n)];
      hide Apply;
      CountsOut(middle, t, Stealable(p), n);
    }
  }

  lemma CountsOut(s: State, t: nat, c: Cell, n: nat)
    requires t < |s.doing| && s.doing[t] == Dequeued(c, n)
    ensures var after := Apply(s, Step(t, Continue));
            && NoQueueChanged(s, after) && after.doing == s.doing[t := Idle]
            && CountOf(after, c) == (CountOf(s, c) - n) % 18446744073709551616
            && forall d: Cell :: d != c ==> CountOf(after, d) == CountOf(s, d)
  {
  }

  /** And one that reads zero passes on. */
  lemma StealPassesOn(s: State, t: nat, p: Priority)
    requires CountOf(s, Stealable(p)) == 0
    ensures Apply(s, Step(t, LookToSteal(p))) == s
  {
  }

  /** A migration that reads a count of 64 or less moves nothing. */
  lemma MigrationPassesOn(s: State, t: nat, p: Priority)
    requires CountOf(s, Local(p)) <= 64
    ensures Apply(s, Step(t, LookToMove(p))) == s
  {
  }

  /**
   * One that reads more takes the first 32 jobs there are then, and joins them to the end of the
   * stealable queue in order.
   */
  lemma MigrationMoves(s: State, t: nat, p: Priority)
    requires t < |s.doing| && s.doing[t] == Idle && CountOf(s, Local(p)) > 64 && |QueueOf(s, Local(p))| > 0
    ensures var n := if 32 < |QueueOf(s, Local(p))| then 32 else |QueueOf(s, Local(p))|;
            var looked := Apply(s, Step(t, LookToMove(p)));
            var taken := Apply(looked, Step(t, Continue));
            var moved := Apply(taken, Step(t, Continue));
            && NoQueueChanged(s, looked) && Became(s, taken, Local(p), n, [])
            && Became(taken, moved, Stealable(p), 0, QueueOf(s, Local(p))[..n]) && NoCountChanged(s, moved)
            && moved.doing == s.doing[t := Moved(p, n)]
  {
    var q := QueueOf(s, Local(p));
    var n := if 32 < |q| then 32 else |q|;
    var looked := Apply(s, Step(t, LookToMove(p)));
    assert looked == s.(doing := s.doing[t := MayMove(p)]);
    var taken := Apply(looked, Step(t, Continue));
    assert taken == s.(queues := s.queues[Local(p) := q[n..]], doing := s.doing[t := Moving(p, q[..n])]);
    var moved := Apply(taken, Step(t, Continue));
    assert moved == taken.(queues := taken.queues[Stealable(p) := QueueOf(taken, Stealable(p)) + q[..n]],
                           doing := s.doing[t := Moved(p, n)]);
    hide Apply;
  }

  /** Then it counts them out of the one queue and into the other. */
  lemma MigrationCounts(s: State, t: nat, p: Priority, n: nat)
    requires t < |s.doing| && s.doing[t] == Moved(p, n)
    ensures var left := Apply(s, Step(t, Continue));
            var after := Apply(left, Step(t, Continue));
            && NoQueueChanged(s, after) && after.doing == s.doing[t := Idle]
            && CountOf(left, Local(p)) == (CountOf(s, Local(p)) - n) % 18446744073709551616
            && CountOf(left, Stealable(p)) == CountOf(s, Stealable(p))
            && CountOf(after, Local(p)) == CountOf(left, Local(p))
            && CountOf(after, Stealable(p)) == (CountOf(s, Stealable(p)) + n) % 18446744073709551616
            && forall d: Cell :: d != Local(p) && d != Stealable(p) ==> CountOf(after, d) == CountOf(s, d)
  {
    var left := Apply(s, Step(t, Continue));
    assert left.doing == s.doing[t := Settling(p, n)] && left.queues == s.queues;
    var after := Apply(left, Step(t, Continue));
    assert after.doing == s.doing[t := Idle] && after.queues == s.queues;
  }
}

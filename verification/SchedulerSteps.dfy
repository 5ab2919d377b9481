/**
 * Every atomic step of the scheduler keeps each job in exactly one place, with a
 * promise that says which.
 */
module SchedulerSteps {
  import opened Wrappers
  import opened JobTypes
  import opened Scheduler
  import opened SchedulerPlaces

  // ---------------------------------------------------------------- the kinds of change

  lemma StayingIsGood(cfg: Config, s: State, next: State)
    requires Good(cfg, s) && Shaped(cfg, next)
    requires Stayed(s, next) && next.jobs == s.jobs
    requires forall p :: At(next, p) != multiset{} ==> SameTag(s, next, p)
    ensures Good(cfg, next)
  {
    hide At;
    MovingKeepsOnce(s, next, Done, Cache(0), multiset{});
    MovingKeepsCovered(s, next, Done, Cache(0), multiset{});
    forall p, j ensures TagOk(next, p, j) {
      assert TagOk(s, p, j) && MovedAt(s, next, Done, Cache(0), multiset{}, p, j);
    }
  }

  /** A frame goes on to other code, still holding what it held. */
  lemma CodeStep(cfg: Config, s: State, t: Thread, code: Code, next: State)
    requires Good(cfg, s) && Alive(s, t) && next.jobs == s.jobs && next.pools == s.pools
    requires next.stack == WithCode(s, t, code).stack
    requires !code.Raise? && !Top(s, t).code.Raise?
    requires FrameOk(Top(s, t).(code := code), |s.stack[t]| - 1)
    ensures Good(cfg, next)
  {
    forall p ensures At(next, p) == At(s, p) {
      AtWithTop(s, t, Top(s, t).(code := code), p);
    }
    StayingIsGood(cfg, s, next);
  }

  /** A call that takes no handles along. */
  lemma PushStep(cfg: Config, s: State, t: Thread, code: Code)
    requires Good(cfg, s) && Alive(s, t)
    requires !code.Raise? && !code.Outside? && !code.Body?
    ensures Good(cfg, Push(s, t, Frame(code, multiset{})))
  {
    var next := Push(s, t, Frame(code, multiset{}));
    forall p ensures At(next, p) == At(s, p) {
      AtPush(s, t, Frame(code, multiset{}), p);
    }
    StayingIsGood(cfg, s, next);
  }

  /** A return with empty hands. */
  lemma PopStep(cfg: Config, s: State, t: Thread)
    requires Good(cfg, s) && Alive(s, t)
    requires Top(s, t).held == multiset{} && !Top(s, t).code.Outside?
    ensures Good(cfg, Pop(s, t)) && Alive(Pop(s, t), t)
  {
    var next := Pop(s, t);
    forall p ensures At(next, p) == At(s, p) {
      AtPop(s, t, p);
    }
    assert FrameOk(s.stack[t][|s.stack[t]| - 1], |s.stack[t]| - 1);
    StayingIsGood(cfg, s, next);
  }

  lemma ShapedWithTop(cfg: Config, s: State, t: Thread, f: Frame, next: State)
    requires Shaped(cfg, s) && Alive(s, t) && FrameOk(f, |s.stack[t]| - 1)
    requires next.stack == WithTop(s, t, f).stack
    ensures Shaped(cfg, next)
  {
  }

  /** Handles go from a pool into the hands of thread `t`. */
  lemma GrabStep(cfg: Config, s: State, t: Thread, pool: Place, taken: multiset<Job>, code: Code)
    requires Good(cfg, s) && Alive(s, t)
    requires !pool.Hand? && !pool.Done? && taken <= At(s, pool)
    requires !code.Raise? && !Top(s, t).code.Raise?
    requires FrameOk(Frame(code, Top(s, t).held + taken), |s.stack[t]| - 1)
    ensures Good(cfg, Grab(s, t, pool, taken, code))
  {
    var next := Grab(s, t, pool, taken, code);
    ShapedWithTop(cfg, s, t, Frame(code, Top(s, t).held + taken), next);
    GrabMoves(s, t, pool, taken, code);
    hide At, Grab, Shaped, FrameOk, Moved;
    MovingKeepsOnce(s, next, pool, TopPlace(s, t), taken);
    MovingKeepsCovered(s, next, pool, TopPlace(s, t), taken);
    GrabKeepsTags(s, t, pool, taken, code);
  }

  lemma GrabKeepsTags(s: State, t: Thread, pool: Place, taken: multiset<Job>, code: Code)
    requires Once(s) && Tagged(s) && Alive(s, t)
    requires !pool.Hand? && !pool.Done? && taken <= At(s, pool)
    requires !code.Raise? && !Top(s, t).code.Raise?
    ensures Tagged(Grab(s, t, pool, taken, code))
  {
    var next := Grab(s, t, pool, taken, code);
    var here := TopPlace(s, t);
    GrabMoves(s, t, pool, taken, code);
    forall j | j in taken ensures TagOk(next, here, j) {
      assert j in At(s, pool);
      hide At;
      assert TagOk(s, pool, j);
    }
    hide At, Grab, Moved;
    MovingKeepsTags(s, next, pool, here, taken);
  }

  lemma GrabMoves(s: State, t: Thread, pool: Place, taken: multiset<Job>, code: Code)
    requires Alive(s, t) && !pool.Hand? && taken <= At(s, pool)
    requires !code.Raise? && !Top(s, t).code.Raise?
    ensures var next := Grab(s, t, pool, taken, code);
            && Moved(s, next, pool, TopPlace(s, t), taken)
            && next.jobs == s.jobs
            && forall p :: SameTag(s, next, p)
  {
    var next := Grab(s, t, pool, taken, code);
    forall p, j ensures MovedAt(s, next, pool, TopPlace(s, t), taken, p, j) {
      hide At, Grab;
      AtGrab(s, t, pool, taken, code, p);
    }
  }

  /** Thread `t` puts all it holds into a pool other than Done. */
  lemma ReleaseStep(cfg: Config, s: State, t: Thread, pool: Place, code: Code)
    requires Good(cfg, s) && Alive(s, t)
    requires !pool.Hand? && !pool.Done?
    requires !code.Raise? && !Top(s, t).code.Raise?
    requires FrameOk(Frame(code, multiset{}), |s.stack[t]| - 1)
    ensures Good(cfg, Release(s, t, pool, code))
  {
    var next := Release(s, t, pool, code);
    var here := TopPlace(s, t);
    var moved := Top(s, t).held;
    ReleaseMoves(s, t, pool, code);
    ShapedWithTop(cfg, s, t, Frame(code, multiset{}), next);
    hide At, Release, Shaped;
    MovingKeepsOnce(s, next, here, pool, moved);
    MovingKeepsCovered(s, next, here, pool, moved);
    forall j | j in moved ensures TagOk(next, pool, j) {
      HeldAtTop(s, t);
      assert TagOk(s, here, j);
    }
    MovingKeepsTags(s, next, here, pool, moved);
  }

  lemma HeldAtTop(s: State, t: Thread)
    requires Alive(s, t)
    ensures At(s, TopPlace(s, t)) == Top(s, t).held
  {
  }

  lemma ReleaseMoves(s: State, t: Thread, pool: Place, code: Code)
    requires Alive(s, t) && !pool.Hand?
    ensures var next := Release(s, t, pool, code);
            && Moved(s, next, TopPlace(s, t), pool, Top(s, t).held)
            && next.jobs == s.jobs
            && At(next, TopPlace(s, t)) == multiset{}
            && forall p :: p != TopPlace(s, t) ==> SameTag(s, next, p)
  {
    var next := Release(s, t, pool, code);
    forall p, j ensures MovedAt(s, next, TopPlace(s, t), pool, Top(s, t).held, p, j) {
      hide At, Release;
      AtRelease(s, t, pool, code, p);
      HeldAtTop(s, t);
    }
  }

  /** Handles never seen before appear in the hands of a new frame. */
  lemma AddStep(cfg: Config, s: State, t: Thread, batch: set<Job>, f: Frame, promise: Promise)
    requires Good(cfg, s) && Alive(s, t) && batch !! s.jobs.Keys
    requires f.held == multiset(batch) && FrameOk(f, |s.stack[t]|)
    requires promise.phase == if f.code.Raise? then Pending else Active
    requires f.code.Raise? ==> promise.counter == Some(f.code.counter)
    ensures Good(cfg, Added1(s, t, batch, f, promise))
  {
    var here := Hand(t, |s.stack[t]|);
    var next := Added1(s, t, batch, f, promise);
    assert Shaped(cfg, next);
    AddMoves(s, t, batch, f, promise);
    hide At, Push, Shaped, Added;
    AddingKeepsPlaces(s, next, here, batch);
    AddKeepsTags(s, t, batch, f, promise);
  }

  function Added1(s: State, t: Thread, batch: set<Job>, f: Frame, promise: Promise): State
    requires Alive(s, t)
  {
    Push(s, t, f).(jobs := Enlist(s.jobs, batch, promise))
  }

  lemma Enlisted(jobs: map<Job, Promise>, batch: set<Job>, promise: Promise)
    ensures var r := Enlist(jobs, batch, promise);
            && r.Keys == jobs.Keys + batch
            && forall j :: j in r ==> r[j] == if j in batch then promise else jobs[j]
  {
  }

  lemma AddKeepsTags(s: State, t: Thread, batch: set<Job>, f: Frame, promise: Promise)
    requires Tagged(s) && Alive(s, t) && batch !! s.jobs.Keys
    requires f.held == multiset(batch)
    requires promise.phase == if f.code.Raise? then Pending else Active
    requires f.code.Raise? ==> promise.counter == Some(f.code.counter)
    ensures Tagged(Added1(s, t, batch, f, promise))
  {
    var here := Hand(t, |s.stack[t]|);
    var next := Added1(s, t, batch, f, promise);
    hide At, Added1, TagOk, SameTag, AddedAt;
    AddMoves(s, t, batch, f, promise);
    JobsAdded(s, t, batch, f, promise);
    forall p, j ensures TagOk(next, p, j) {
      assert TagOk(s, p, j) && AddedAt(s, next, here, batch, p, j);
      if p == here {
        NewTag(s, next, t, batch, f, promise, j);
      } else {
        OldTag(s, next, here, batch, p, j);
      }
    }
  }

  lemma JobsAdded(s: State, t: Thread, batch: set<Job>, f: Frame, promise: Promise)
    requires Alive(s, t)
    ensures var next := Added1(s, t, batch, f, promise);
            && next.jobs.Keys == s.jobs.Keys + batch
            && forall j :: j in next.jobs ==> next.jobs[j] == if j in batch then promise else s.jobs[j]
  {
    Enlisted(s.jobs, batch, promise);
    hide Enlist;
  }

  lemma OldTag(s: State, next: State, here: Place, batch: set<Job>, p: Place, j: Job)
    requires TagOk(s, p, j) && AddedAt(s, next, here, batch, p, j) && SameTag(s, next, p) && p != here
    requires j in s.jobs ==> j in next.jobs && next.jobs[j] == s.jobs[j]
    ensures TagOk(next, p, j)
  {
    hide At;
  }

  lemma NewTag(s: State, next: State, t: Thread, batch: set<Job>, f: Frame, promise: Promise, j: Job)
    requires Alive(s, t) && t < |next.stack| && |next.stack[t]| == |s.stack[t]| + 1
    requires next.stack[t][|s.stack[t]|] == f
    requires AddedAt(s, next, Hand(t, |s.stack[t]|), batch, Hand(t, |s.stack[t]|), j)
    requires At(s, Hand(t, |s.stack[t]|)) == multiset{}
    requires j in batch ==> j in next.jobs && next.jobs[j] == promise
    requires promise.phase == if f.code.Raise? then Pending else Active
    requires f.code.Raise? ==> promise.counter == Some(f.code.counter)
    ensures TagOk(next, Hand(t, |s.stack[t]|), j)
  {
    hide At;
  }

  lemma AddMoves(s: State, t: Thread, batch: set<Job>, f: Frame, promise: Promise)
    requires Alive(s, t) && batch !! s.jobs.Keys && f.held == multiset(batch)
    ensures var next := Added1(s, t, batch, f, promise);
            && Added(s, next, Hand(t, |s.stack[t]|), batch)
            && |next.stack[t]| == |s.stack[t]| + 1 && next.stack[t][|s.stack[t]|] == f
            && forall p :: p != Hand(t, |s.stack[t]|) ==> SameTag(s, next, p)
    ensures At(s, Hand(t, |s.stack[t]|)) == multiset{}
  {
    var here := Hand(t, |s.stack[t]|);
    var next := Added1(s, t, batch, f, promise);
    Enlisted(s.jobs, batch, promise);
    hide Enlist;
    forall p, j ensures AddedAt(s, next, here, batch, p, j) {
      hide *;
      AddMovesAt(s, t, batch, f, promise, p, j);
    }
  }

  lemma AddMovesAt(s: State, t: Thread, batch: set<Job>, f: Frame, promise: Promise, p: Place, j: Job)
    requires Alive(s, t) && f.held == multiset(batch)
    ensures AddedAt(s, Added1(s, t, batch, f, promise), Hand(t, |s.stack[t]|), batch, p, j)
  {
    assert At(Added1(s, t, batch, f, promise), p) == At(Push(s, t, f), p);
    AtPush(s, t, f, p);
    NothingAbove(s, t);
    hide At, Push, Enlist;
  }

  lemma NothingAbove(s: State, t: Thread)
    ensures t < |s.stack| ==> At(s, Hand(t, |s.stack[t]|)) == multiset{}
  {
  }

  lemma PhaseSet(jobs: map<Job, Promise>, batch: multiset<Job>, phase: Phase)
    ensures var r := SetPhase(jobs, batch, phase);
            && r.Keys == jobs.Keys
            && forall j :: j in jobs ==> r[j] == if j in batch then jobs[j].(phase := phase) else jobs[j]
  {
  }

  /** The counter is raised: the batch in hand is announced. */
  lemma RaiseStep(cfg: Config, s: State, t: Thread)
    requires Good(cfg, s) && Alive(s, t) && Top(s, t).code.Raise?
    ensures Good(cfg, DoRaise(s, t))
  {
    var next := DoRaise(s, t);
    RaiseStays(s, t);
    RaiseShaped(cfg, s, t);
    RaiseKeepsTags(s, t);
    RaiseKeepsJobs(s, t);
    hide At, Shaped, DoRaise, Top, TopPlace, Once, Covered, Tagged, Moved;
    MovingKeepsOnce(s, next, Done, Cache(0), multiset{});
    MovingKeepsCovered(s, next, Done, Cache(0), multiset{});
  }

  lemma RaiseShaped(cfg: Config, s: State, t: Thread)
    requires Shaped(cfg, s) && Alive(s, t) && Top(s, t).code.Raise?
    ensures Shaped(cfg, DoRaise(s, t))
  {
    var f := Frame(Submit(Top(s, t).code.priority, false), Top(s, t).held);
    assert FrameOk(Top(s, t), |s.stack[t]| - 1);
    ShapedWithTop(cfg, s, t, f, DoRaise(s, t));
    hide Shaped, SetPhase;
  }

  lemma RaiseKeepsJobs(s: State, t: Thread)
    requires Alive(s, t) && Top(s, t).code.Raise?
    ensures DoRaise(s, t).jobs.Keys == s.jobs.Keys
  {
    PhaseSet(s.jobs, Top(s, t).held, Active);
    hide SetPhase;
  }

  lemma RaiseKeepsTags(s: State, t: Thread)
    requires Once(s) && Tagged(s) && Alive(s, t) && Top(s, t).code.Raise?
    ensures Tagged(DoRaise(s, t))
  {
    var next := DoRaise(s, t);
    var here := TopPlace(s, t);
    PhaseSet(s.jobs, Top(s, t).held, Active);
    HeldAtTop(s, t);
    RaiseStays(s, t);
    hide At, SetPhase, WithCode, TopPlace;
    forall p, j ensures TagOk(next, p, j) {
      assert TagOk(s, p, j) && MovedAt(s, next, Done, Cache(0), multiset{}, p, j) && Single(s, p, here, j);
    }
  }

  lemma RaiseStays(s: State, t: Thread)
    requires Alive(s, t) && Top(s, t).code.Raise?
    ensures Stayed(s, DoRaise(s, t))
    ensures !InRaise(DoRaise(s, t), TopPlace(s, t))
    ensures forall p :: p != TopPlace(s, t) ==> SameTag(s, DoRaise(s, t), p)
  {
    var next := DoRaise(s, t);
    PhaseSet(s.jobs, Top(s, t).held, Active);
    hide SetPhase;
    forall p, j ensures MovedAt(s, next, Done, Cache(0), multiset{}, p, j) {
      assert At(next, p) == At(s, p);
    }
  }

  lemma FinishedIsGood(cfg: Config, s: State, t: Thread, j: Job)
    requires Good(cfg, s) && Alive(s, t) && j in s.jobs
    requires Top(s, t).code.Body? && Top(s, t).held == multiset{j}
    ensures Good(cfg, Finished(s, t, j))
  {
    var next := Finished(s, t, j);
    var here := TopPlace(s, t);
    FinishedMoves(s, t, j);
    ShapedWithTop(cfg, s, t, Frame(ClearWake(s.jobs[j].counter), multiset{}), next);
    hide At, Shaped, Release;
    MovingKeepsOnce(s, next, here, Done, multiset{j});
    MovingKeepsCovered(s, next, here, Done, multiset{j});
    MovingKeepsTags(s, next, here, Done, multiset{j});
  }

  lemma FinishedMoves(s: State, t: Thread, j: Job)
    requires Alive(s, t) && j in s.jobs && Top(s, t).held == multiset{j} && !Top(s, t).code.Raise?
    ensures var next := Finished(s, t, j);
            && Moved(s, next, TopPlace(s, t), Done, multiset{j})
            && At(next, TopPlace(s, t)) == multiset{}
            && forall p :: SameTag(s, next, p)
  {
    var next := Finished(s, t, j);
    var s1 := Release(s, t, Done, ClearWake(s.jobs[j].counter));
    ReleaseMoves(s, t, Done, ClearWake(s.jobs[j].counter));
    forall p, k ensures MovedAt(s, next, TopPlace(s, t), Done, multiset{j}, p, k) {
      assert At(next, p) == At(s1, p);
      assert MovedAt(s, s1, TopPlace(s, t), Done, multiset{j}, p, k);
    }
  }

  lemma FinalizeStep(cfg: Config, s: State, t: Thread, j: Job)
    requires Good(cfg, s) && Alive(s, t) && j in s.jobs
    requires Top(s, t).code.Body? && Top(s, t).held == multiset{j}
    ensures Good(cfg, Finalize(s, t, j))
  {
    FinishedIsGood(cfg, s, t, j);
    FinishedTop(s, t, j);
    hide Finished;
    if !s.jobs[j].bound {
      PopStep(cfg, Finished(s, t, j), t);
    }
  }

  lemma FinishedTop(s: State, t: Thread, j: Job)
    requires Alive(s, t) && j in s.jobs
    ensures var next := Finished(s, t, j);
            Alive(next, t) && Top(next, t) == Frame(ClearWake(s.jobs[j].counter), multiset{})
  {
  }

  lemma NotifyStep(cfg: Config, s: State, t: Thread)
    requires Good(cfg, s) && Alive(s, t) && Top(s, t).code.NotifyWake?
    ensures Good(cfg, Notify(s, t))
  {
    var s1 := Pop(s, t);
    var next := Notify(s, t);
    assert FrameOk(Top(s, t), |s.stack[t]| - 1);
    PopStep(cfg, s, t);
    WokenShaped(cfg, s1, next);
    forall p ensures At(next, p) == At(s1, p) { AtNotify(s, t, p); }
    hide Notify, Shaped;
    StayingIsGood(cfg, s1, next);
  }

  lemma WokenShaped(cfg: Config, s: State, next: State)
    requires Shaped(cfg, s) && next.jobs == s.jobs
    requires |next.stack| == |s.stack| && forall u :: 0 <= u < |s.stack| ==> next.stack[u] == Woken(s.stack[u])
    ensures Shaped(cfg, next) && forall p :: SameTag(s, next, p)
  {
    forall u, d | 0 <= u < |next.stack| && 0 <= d < |next.stack[u]| ensures FrameOk(next.stack[u][d], d) {
      assert FrameOk(s.stack[u][d], d);
    }
  }

  lemma ReportEmptyStep(cfg: Config, s: State, t: Thread)
    requires Good(cfg, s) && Alive(s, t) && Top(s, t).code.Filled? && Top(s, t).held == multiset{}
    ensures Good(cfg, ReportEmpty(s, t))
  {
    PopStep(cfg, s, t);
    var s1 := Pop(s, t);
    if Top(s1, t).code.Waiting? && Top(s1, t).code.point == Check {
      assert FrameOk(Top(s1, t), |s1.stack[t]| - 1);
      CodeStep(cfg, s1, t, Waiting(Top(s1, t).code.counter, Arm), ReportEmpty(s, t));
    }
  }
}

/**
 * Every job handle is in exactly one place, over every interleaving.
 */
module SchedulerPlaces {
  import opened Wrappers
  import opened JobTypes
  import opened Scheduler

  predicate EmptyHanded(code: Code) {
    code.Outside? || code.Iterate? || code.ClearWake? || code.NotifyWake? || code.MigrateTake? || code.Waiting?
  }

  /** Call-stack shape: what a frame may hold, given the code it is in. */
  ghost predicate FrameOk(f: Frame, depth: nat) {
    && (f.code.Outside? <==> depth == 0)
    && (f.code.Body? ==> |f.held| == 1)
    && (EmptyHanded(f.code) ==> f.held == multiset{})
  }

  ghost predicate Shaped(cfg: Config, s: State) {
    && |s.stack| == cfg.workers + 1
    && (forall t :: 0 <= t < |s.stack| ==> s.stack[t] != [])
    && (forall t, d :: 0 <= t < |s.stack| && 0 <= d < |s.stack[t]| ==> FrameOk(s.stack[t][d], d))
  }

  /** Job `j` is not in both places, and not twice in the first. */
  ghost predicate Single(s: State, p: Place, q: Place, j: Job) {
    (j in At(s, p) && j in At(s, q) ==> p == q) && At(s, p)[j] <= 1
  }

  /** No handle is in two places, or twice in one. */
  ghost predicate Once(s: State) {
    forall p, q, j :: Single(s, p, q, j)
  }

  ghost predicate Somewhere(s: State, j: Job) {
    exists p :: j in At(s, p)
  }

  /** The jobs the scheduler knows are exactly the ones found somewhere. */
  ghost predicate Covered(s: State) {
    forall j :: j in s.jobs <==> Somewhere(s, j)
  }

  predicate InRaise(s: State, p: Place) {
    && p.Hand? && p.thread < |s.stack| && p.depth < |s.stack[p.thread]|
    && s.stack[p.thread][p.depth].code.Raise?
  }

  /** The phase that being in place `p` stands for. */
  function PhaseAt(s: State, p: Place): Phase {
    if p == Done then Finalized else if InRaise(s, p) then Pending else Active
  }

  /** If job `j` is at `p`, its promise agrees with that. */
  ghost predicate TagOk(s: State, p: Place, j: Job) {
    j in At(s, p) ==>
      && j in s.jobs
      && s.jobs[j].phase == PhaseAt(s, p)
      && (InRaise(s, p) ==> s.jobs[j].counter == Some(s.stack[p.thread][p.depth].code.counter))
  }

  /** Every promise's phase agrees with where its job is. */
  ghost predicate Tagged(s: State) {
    forall p, j :: TagOk(s, p, j)
  }

  ghost predicate Good(cfg: Config, s: State) {
    Shaped(cfg, s) && Once(s) && Covered(s) && Tagged(s)
  }

  // ---------------------------------------------------------------- moving handles

  /** How often `j` is at `p` after `moved` went from `a` to `b`. */
  function CountAfter(s: State, a: Place, b: Place, moved: multiset<Job>, p: Place, j: Job): int {
    At(s, p)[j] as int + (if p == b then moved[j] else 0) - (if p == a then moved[j] else 0)
  }

  ghost predicate MovedAt(s: State, next: State, a: Place, b: Place, moved: multiset<Job>, p: Place, j: Job) {
    At(next, p)[j] == CountAfter(s, a, b, moved, p, j)
  }

  /** `next` differs from `s` only in that `moved` went from `a` to `b`. */
  ghost predicate Moved(s: State, next: State, a: Place, b: Place, moved: multiset<Job>) {
    && a != b
    && next.jobs.Keys == s.jobs.Keys
    && forall p, j :: MovedAt(s, next, a, b, moved, p, j)
  }

  lemma MovedFrom(s: State, next: State, a: Place, b: Place, moved: multiset<Job>, p: Place, j: Job)
    requires Once(s) && Moved(s, next, a, b, moved) && j in At(next, p)
    ensures At(next, p)[j] == 1
    ensures if j in moved then p == b && j in At(s, a) else j in At(s, p)
  {
    hide At;
    assert MovedAt(s, next, a, b, moved, p, j) && MovedAt(s, next, a, b, moved, a, j);
    assert Single(s, p, a, j) && Single(s, a, b, j) && Single(s, b, b, j) && Single(s, a, a, j);
  }

  lemma MovingKeepsOnce(s: State, next: State, a: Place, b: Place, moved: multiset<Job>)
    requires Once(s) && Moved(s, next, a, b, moved)
    ensures Once(next)
  {
    hide At;
    forall p, q, j ensures Single(next, p, q, j) {
      if j in At(next, p) {
        MovedFrom(s, next, a, b, moved, p, j);
        if j in At(next, q) {
          MovedFrom(s, next, a, b, moved, q, j);
          assert Single(s, p, q, j);
        }
      }
    }
  }

  lemma MovingKeepsCovered(s: State, next: State, a: Place, b: Place, moved: multiset<Job>)
    requires Once(s) && Covered(s) && Moved(s, next, a, b, moved)
    ensures Covered(next)
  {
    hide At;
    forall j ensures j in next.jobs <==> Somewhere(next, j) {
      if Somewhere(s, j) {
        var p :| j in At(s, p);
        assert MovedAt(s, next, a, b, moved, p, j) && MovedAt(s, next, a, b, moved, b, j);
        assert j in At(next, p) || j in At(next, b);
      }
      if Somewhere(next, j) {
        var p :| j in At(next, p);
        MovedFrom(s, next, a, b, moved, p, j);
      }
    }
  }

  /** Handles never seen before appear in one empty place. */
  ghost predicate AddedAt(s: State, next: State, b: Place, batch: set<Job>, p: Place, j: Job) {
    At(next, p)[j] == At(s, p)[j] + if p == b && j in batch then 1 else 0
  }

  ghost predicate Added(s: State, next: State, b: Place, batch: set<Job>) {
    && batch !! s.jobs.Keys
    && next.jobs.Keys == s.jobs.Keys + batch
    && forall p, j :: AddedAt(s, next, b, batch, p, j)
  }

  lemma AddingKeepsPlaces(s: State, next: State, b: Place, batch: set<Job>)
    requires Once(s) && Covered(s) && Added(s, next, b, batch)
    ensures Once(next) && Covered(next)
  {
    hide At;
    forall p, q, j ensures Single(next, p, q, j) {
      assert AddedAt(s, next, b, batch, p, j) && AddedAt(s, next, b, batch, q, j);
      assert Single(s, p, q, j) && (j in batch ==> !Somewhere(s, j));
    }
    forall j ensures j in next.jobs <==> Somewhere(next, j) {
      assert AddedAt(s, next, b, batch, b, j);
      if Somewhere(s, j) {
        var p :| j in At(s, p);
        assert AddedAt(s, next, b, batch, p, j) && j in At(next, p);
      }
      if Somewhere(next, j) {
        var p :| j in At(next, p);
        assert AddedAt(s, next, b, batch, p, j);
      }
    }
  }

  /** The places hold what they held. */
  ghost predicate Stayed(s: State, next: State) {
    Moved(s, next, Done, Cache(0), multiset{})
  }

  // ---------------------------------------------------------------- what each change does to the places

  lemma AtWithTop(s: State, t: Thread, f: Frame, p: Place)
    requires Alive(s, t)
    ensures At(WithTop(s, t, f), p) == if p == TopPlace(s, t) then f.held else At(s, p)
  {
  }

  lemma AtPush(s: State, t: Thread, f: Frame, p: Place)
    requires Alive(s, t)
    ensures At(Push(s, t, f), p) == if p == Hand(t, |s.stack[t]|) then f.held else At(s, p)
  {
  }

  lemma AtPop(s: State, t: Thread, p: Place)
    requires Alive(s, t)
    ensures At(Pop(s, t), p) == if p == TopPlace(s, t) then multiset{} else At(s, p)
  {
  }

  lemma AtGrab(s: State, t: Thread, pool: Place, taken: multiset<Job>, code: Code, p: Place)
    requires Alive(s, t) && !pool.Hand?
    ensures At(Grab(s, t, pool, taken, code), p)
         == if p == pool then At(s, p) - taken
            else if p == TopPlace(s, t) then At(s, p) + taken
            else At(s, p)
  {
  }

  lemma AtRelease(s: State, t: Thread, pool: Place, code: Code, p: Place)
    requires Alive(s, t) && !pool.Hand?
    ensures At(Release(s, t, pool, code), p)
         == if p == pool then At(s, p) + Top(s, t).held
            else if p == TopPlace(s, t) then multiset{}
            else At(s, p)
  {
  }

  lemma AtNotify(s: State, t: Thread, p: Place)
    requires Alive(s, t)
    ensures At(Notify(s, t), p) == At(Pop(s, t), p)
  {
  }

  // ---------------------------------------------------------------- tags

  /** Place `p` stands for the same phase in both states. */
  ghost predicate SameTag(s: State, next: State, p: Place) {
    && InRaise(s, p) == InRaise(next, p)
    && (InRaise(s, p) ==>
          next.stack[p.thread][p.depth].code.counter == s.stack[p.thread][p.depth].code.counter)
  }

  lemma MovingKeepsTags(s: State, next: State, a: Place, b: Place, moved: multiset<Job>)
    requires Once(s) && Tagged(s) && Moved(s, next, a, b, moved)
    requires forall j :: j in s.jobs && j !in moved ==> next.jobs[j] == s.jobs[j]
    requires forall p :: At(next, p) != multiset{} && p != b ==> SameTag(s, next, p)
    requires At(s, b) != multiset{} ==> SameTag(s, next, b)
    requires forall j :: j in moved ==> TagOk(next, b, j)
    ensures Tagged(next)
  {
    hide At;
    forall p, j ensures TagOk(next, p, j) {
      if j in At(next, p) {
        MovedFrom(s, next, a, b, moved, p, j);
        assert TagOk(s, p, j);
      }
    }
  }
}

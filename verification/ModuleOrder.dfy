/** Orders of modules: dependencies first, by level, and the sublists for a tag. */
module ModuleOrder {
  import opened Basics
  import opened ModuleLevels

  /** Everything a module depends on comes before it. */
  ghost predicate InDependencyOrder(g: Graph, ms: seq<Module>) {
    forall i, d :: 0 <= i < |ms| && DependsOn(g, ms[i], d) ==> d in ms[..i]
  }

  /** No module comes before one that it depends on. */
  ghost predicate DependenciesFirst(g: Graph, ms: seq<Module>) {
    forall i, j :: 0 <= i < j < |ms| ==> !DependsOn(g, ms[i], ms[j])
  }

  /** No module comes after one that depends on it. */
  ghost predicate DependentsFirst(g: Graph, ms: seq<Module>) {
    forall i, j :: 0 <= i < j < |ms| ==> !DependsOn(g, ms[j], ms[i])
  }

  function Reverse(ms: seq<Module>): (r: seq<Module>)
    ensures |r| == |ms|
  {
    if ms == [] then [] else Reverse(ms[1..]) + [ms[0]]
  }

  lemma {:induction false} ReverseAt(ms: seq<Module>, k: nat)
    requires k < |ms|
    ensures Reverse(ms)[k] == ms[|ms| - 1 - k]
  {
    if k < |ms| - 1 {
      ReverseAt(ms[1..], k);
    }
  }

  lemma ReverseTurnsOrder(g: Graph, ms: seq<Module>)
    requires DependenciesFirst(g, ms)
    ensures DependentsFirst(g, Reverse(ms))
  {
    forall i, j | 0 <= i < j < |ms| ensures !DependsOn(g, Reverse(ms)[j], Reverse(ms)[i]) {
      ReverseAt(ms, i);
      ReverseAt(ms, j);
    }
  }

  lemma OrderPutsDependenciesFirst(g: Graph, ms: seq<Module>)
    requires InDependencyOrder(g, ms) && Distinct(ms)
    ensures DependenciesFirst(g, ms)
  {
    forall i, j | 0 <= i < j < |ms| ensures !DependsOn(g, ms[i], ms[j]) {
      assert ms[j] !in ms[..i];
    }
  }

  // ---------------------------------------------------------------- an order leaves no cycle

  lemma {:induction false} PathGoesBack(g: Graph, ms: seq<Module>, i: nat, p: seq<Module>, k: nat)
    requires InDependencyOrder(g, ms) && i < |ms| && IsPathFrom(g, ms[i], p) && 0 < k < |p|
    ensures p[k] in ms[..i]
    decreases k
  {
    TailPath(g, ms[i], p);
    assert p[1] in ms[..i];
    if k > 1 {
      var j :| 0 <= j < i && ms[j] == p[1];
      PathGoesBack(g, ms, j, p[1..], k - 1);
    }
  }

  lemma SuffixPath(g: Graph, p: seq<Module>, a: nat)
    requires IsPath(g, p) && a < |p|
    ensures IsPathFrom(g, p[a], p[a..])
  {
    forall i | 0 <= i < |p[a..]| - 1 ensures DependsOn(g, p[a..][i], p[a..][i + 1]) {
      assert DependsOn(g, p[a + i], p[a + i + 1]);
    }
  }

  /** In dependency order no module reaches a cycle. */
  lemma OrderMeansNoCycle(g: Graph, ms: seq<Module>, i: nat)
    requires InDependencyOrder(g, ms) && Distinct(ms) && i < |ms|
    ensures !CycleReachable(g, ms[i])
  {
    if CycleReachable(g, ms[i]) {
      var p, a, b :| IsPathFrom(g, ms[i], p) && 0 <= a < b < |p| && p[a] == p[b];
      var j := i;
      if a > 0 {
        PathGoesBack(g, ms, i, p, a);
        j :| 0 <= j < i && ms[j] == p[a];
      }
      SuffixPath(g, p, a);
      PathGoesBack(g, ms, j, p[a..], b - a);
    }
  }

  // ---------------------------------------------------------------- sorting by level

  predicate SortedByLevel(levels: Levels, ms: seq<Module>) {
    && (forall i :: 0 <= i < |ms| ==> ms[i] in levels)
    && (forall i, j :: 0 <= i < j < |ms| ==> levels[ms[i]] <= levels[ms[j]])
  }

  /** A permutation of `ms` that is sorted by level; which one is left to the library. */
  method SortByLevel(levels: Levels, ms: seq<Module>) returns (sorted: seq<Module>)
    requires forall m :: m in ms ==> m in levels
    ensures SortedByLevel(levels, sorted) && multiset(sorted) == multiset(ms)
  {
    sorted := [];
    var i := 0;
    while i < |ms|
      invariant 0 <= i <= |ms|
      invariant SortedByLevel(levels, sorted) && multiset(sorted) == multiset(ms[..i])
    {
      sorted := Insert(levels, sorted, ms[i]);
      assert ms[..i + 1] == ms[..i] + [ms[i]];
      i := i + 1;
    }
    assert ms[..|ms|] == ms;
  }

  method Insert(levels: Levels, sorted: seq<Module>, m: Module) returns (more: seq<Module>)
    requires SortedByLevel(levels, sorted) && m in levels
    ensures SortedByLevel(levels, more) && multiset(more) == multiset(sorted) + multiset{m}
  {
    var k := |sorted|;
    while k > 0 && levels[sorted[k - 1]] > levels[m]
      invariant 0 <= k <= |sorted|
      invariant forall j :: k <= j < |sorted| ==> levels[sorted[j]] > levels[m]
    {
      k := k - 1;
    }
    more := sorted[..k] + [m] + sorted[k..];
    InsertedIsSorted(levels, sorted, m, k);
    InsertedOnce(sorted, m, k);
  }

  /** A place for `m`: no higher level before it, and only higher ones from there on. */
  ghost predicate Fits(levels: Levels, sorted: seq<Module>, m: Module, k: nat) {
    && SortedByLevel(levels, sorted) && m in levels && k <= |sorted|
    && (k > 0 ==> levels[sorted[k - 1]] <= levels[m])
    && forall j :: k <= j < |sorted| ==> levels[sorted[j]] > levels[m]
  }

  lemma InsertedPair(levels: Levels, sorted: seq<Module>, m: Module, k: nat, i: nat, j: nat)
    requires Fits(levels, sorted, m, k) && i < j <= |sorted|
    ensures InsertedAt(sorted, m, k, i) in levels && InsertedAt(sorted, m, k, j) in levels
    ensures levels[InsertedAt(sorted, m, k, i)] <= levels[InsertedAt(sorted, m, k, j)]
  {
    if i < k - 1 && j == k {
      assert levels[sorted[i]] <= levels[sorted[k - 1]];
    }
  }

  /** The sequence with `m` put in at `k`. */
  function Inserted(sorted: seq<Module>, m: Module, k: nat): (r: seq<Module>)
    requires k <= |sorted|
    ensures |r| == |sorted| + 1 && forall i :: 0 <= i < |r| ==> r[i] == InsertedAt(sorted, m, k, i)
  {
    sorted[..k] + [m] + sorted[k..]
  }

  lemma InsertedOnce(sorted: seq<Module>, m: Module, k: nat)
    requires k <= |sorted|
    ensures multiset(Inserted(sorted, m, k)) == multiset(sorted) + multiset{m}
  {
    assert sorted == sorted[..k] + sorted[k..];
  }

  lemma InsertedIsSorted(levels: Levels, sorted: seq<Module>, m: Module, k: nat)
    requires Fits(levels, sorted, m, k)
    ensures SortedByLevel(levels, Inserted(sorted, m, k))
  {
    var more := Inserted(sorted, m, k);
    hide SortedByLevel, Inserted;
    forall i, j | 0 <= i < j < |more|
      ensures more[i] in levels && more[j] in levels && levels[more[i]] <= levels[more[j]]
    {
      InsertedPair(levels, sorted, m, k, i, j);
      hide Fits;
    }
    forall i | 0 <= i < |more| ensures more[i] in levels {
      if i > 0 {
        assert more[0] in levels && more[i] in levels;
      } else if |more| > 1 {
        assert more[0] in levels && more[1] in levels;
      } else {
        assert more[0] == m;
      }
    }
    SortedPointwise(levels, more);
  }

  lemma SortedPointwise(levels: Levels, ms: seq<Module>)
    requires forall i :: 0 <= i < |ms| ==> ms[i] in levels
    requires forall i, j :: 0 <= i < j < |ms| ==> levels[ms[i]] <= levels[ms[j]]
    ensures SortedByLevel(levels, ms)
  {
  }

  function InsertedAt(sorted: seq<Module>, m: Module, k: nat, i: nat): Module
    requires k <= |sorted| && i <= |sorted|
  {
    if i < k then sorted[i] else if i == k then m else sorted[i - 1]
  }

  /** Sorted by level, modules are in dependency order. */
  lemma SortedIsInOrder(g: Graph, levels: Levels, ms: seq<Module>)
    requires Correct(g, levels) && SortedByLevel(levels, ms)
    requires forall m, d :: m in ms && DependsOn(g, m, d) ==> d in ms
    ensures InDependencyOrder(g, ms)
  {
    forall i, d | 0 <= i < |ms| && DependsOn(g, ms[i], d) ensures d in ms[..i] {
      assert ms[i] in ms;
      var j :| 0 <= j < |ms| && ms[j] == d;
      DependencyIsLower(g, ms[i], d, levels[ms[i]], levels[d]);
      assert j < i;
      assert ms[..i][j] == d;
    }
  }

  // ---------------------------------------------------------------- the buckets of the dependency graph

  /** Bucket `l` holds exactly the modules of level `l`, each once; the last is not empty, unless it is the only one. */
  ghost predicate PartitionedByLevel(buckets: seq<seq<Module>>, levels: Levels) {
    && (forall l :: 0 <= l < |buckets| ==> Distinct(buckets[l]))
    && (forall l, m :: 0 <= l < |buckets| ==> (m in buckets[l] <==> m in levels && levels[m] == l))
    && (forall m :: m in levels ==> levels[m] < |buckets|)
    && (|buckets| == 1 || exists m :: m in levels && levels[m] == |buckets| - 1)
  }

  /** The highest level, or 0 when there is none; the map is visited in no particular order. */
  method HighestLevel(levels: Levels) returns (maxLevel: nat)
    ensures forall m :: m in levels ==> levels[m] <= maxLevel
    ensures maxLevel == 0 || exists m :: m in levels && levels[m] == maxLevel
  {
    maxLevel := 0;
    var left := levels.Keys;
    while left != {}
      invariant left <= levels.Keys
      invariant forall m :: m in levels.Keys - left ==> levels[m] <= maxLevel
      invariant maxLevel == 0 || exists m :: m in levels && levels[m] == maxLevel
      decreases |left|
    {
      var m :| m in left;
      if levels[m] > maxLevel {
        maxLevel := levels[m];
      }
      left := left - {m};
    }
  }

  /** The buckets hold the visited modules, by level. */
  ghost predicate FilledSoFar(buckets: seq<seq<Module>>, levels: Levels, left: set<Module>) {
    && (forall l :: 0 <= l < |buckets| ==> Distinct(buckets[l]))
    && (forall l, m :: 0 <= l < |buckets| ==> (m in buckets[l] <==> m in levels && m !in left && levels[m] == l))
  }

  lemma OneMoreFilled(buckets: seq<seq<Module>>, levels: Levels, left: set<Module>, m: Module)
    requires FilledSoFar(buckets, levels, left) && m in left && m in levels && levels[m] < |buckets|
    ensures FilledSoFar(buckets[levels[m] := buckets[levels[m]] + [m]], levels, left - {m})
  {
    var l := levels[m];
    assert m !in buckets[l];
  }

  /** One bucket for each level, and one at least. */
  method FillBuckets(levels: Levels) returns (buckets: seq<seq<Module>>)
    ensures PartitionedByLevel(buckets, levels)
  {
    var maxLevel := HighestLevel(levels);
    buckets := seq(maxLevel + 1, _ => []);
    var left := levels.Keys;
    while left != {}
      invariant left <= levels.Keys && |buckets| == maxLevel + 1
      invariant FilledSoFar(buckets, levels, left)
      decreases |left|
    {
      var m :| m in left;
      OneMoreFilled(buckets, levels, left, m);
      hide FilledSoFar;
      buckets := buckets[levels[m] := buckets[levels[m]] + [m]];
      left := left - {m};
    }
  }

  // ---------------------------------------------------------------- tags

  datatype Tag = FrameLifecycle | Update | GuiUpdate | PostUpdate

  /** The modules with tag `t`, in the same order. */
  function Tagged(tags: map<Module, set<Tag>>, t: Tag, ms: seq<Module>): seq<Module> {
    if ms == [] then []
    else
      var last := ms[|ms| - 1];
      Tagged(tags, t, ms[..|ms| - 1]) + if last in tags && t in tags[last] then [last] else []
  }

  /** The sublist has exactly the modules with the tag. */
  lemma {:induction false} TaggedHas(tags: map<Module, set<Tag>>, t: Tag, ms: seq<Module>, m: Module)
    ensures m in Tagged(tags, t, ms) <==> m in ms && m in tags && t in tags[m]
    decreases |ms|
  {
    if ms != [] {
      TaggedHas(tags, t, ms[..|ms| - 1], m);
      assert ms == ms[..|ms| - 1] + [ms[|ms| - 1]];
    }
  }

  /** A sublist of modules with dependencies first has its dependencies first. */
  lemma {:induction false} TaggedInOrder(g: Graph, tags: map<Module, set<Tag>>, t: Tag, ms: seq<Module>)
    requires DependenciesFirst(g, ms)
    ensures DependenciesFirst(g, Tagged(tags, t, ms))
    decreases |ms|
  {
    if ms != [] {
      var front, last := ms[..|ms| - 1], ms[|ms| - 1];
      assert DependenciesFirst(g, front) by {
        forall i, j | 0 <= i < j < |front| ensures !DependsOn(g, front[i], front[j]) {
          assert !DependsOn(g, ms[i], ms[j]);
        }
      }
      TaggedInOrder(g, tags, t, front);
      var kept := Tagged(tags, t, front);
      forall k | 0 <= k < |kept| ensures !DependsOn(g, kept[k], last) {
        TaggedHas(tags, t, front, kept[k]);
        var i :| 0 <= i < |front| && front[i] == kept[k];
        assert !DependsOn(g, ms[i], ms[|ms| - 1]);
      }
    }
  }
}

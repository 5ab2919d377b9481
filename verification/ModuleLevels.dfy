/** Levels in a dependency graph, and the memoised depth-first search that computes them. */
module ModuleLevels {
  import opened Wrappers

  type Module = nat

  /** The modules that each module depends on. */
  type Graph = map<Module, seq<Module>>

  ghost predicate Closed(g: Graph) {
    forall m, i :: m in g && 0 <= i < |g[m]| ==> g[m][i] in g
  }

  predicate DependsOn(g: Graph, m: Module, d: Module) {
    m in g && d in g[m]
  }

  // ---------------------------------------------------------------- paths

  /** A dependency path: each module depends on the next. */
  predicate IsPath(g: Graph, p: seq<Module>) {
    p != [] && forall i :: 0 <= i < |p| - 1 ==> DependsOn(g, p[i], p[i + 1])
  }

  predicate IsPathFrom(g: Graph, m: Module, p: seq<Module>) {
    IsPath(g, p) && p[0] == m
  }

  /** `n` is the number of links in the longest path from `m`. */
  ghost predicate IsLevel(g: Graph, m: Module, n: nat) {
    && (exists p :: IsPathFrom(g, m, p) && |p| == n + 1)
    && (forall p :: IsPathFrom(g, m, p) ==> |p| <= n + 1)
  }

  /** Some path from `m` comes back to a module it has been to. */
  ghost predicate CycleReachable(g: Graph, m: Module) {
    exists p, i, j :: IsPathFrom(g, m, p) && 0 <= i < j < |p| && p[i] == p[j]
  }

  lemma JoinPaths(g: Graph, p: seq<Module>, q: seq<Module>)
    requires IsPath(g, p) && IsPath(g, q) && p[|p| - 1] == q[0]
    ensures IsPath(g, p + q[1..]) && (p + q[1..])[|p| + |q| - 2] == q[|q| - 1]
  {
    var r := p + q[1..];
    forall i | 0 <= i < |r| - 1 ensures DependsOn(g, r[i], r[i + 1]) {
      if i >= |p| - 1 {
        assert r[i] == q[i - |p| + 1] && r[i + 1] == q[i - |p| + 2];
      }
    }
  }

  lemma StepPath(g: Graph, m: Module, d: Module, p: seq<Module>)
    requires DependsOn(g, m, d) && IsPathFrom(g, d, p)
    ensures IsPathFrom(g, m, [m] + p)
  {
    var r := [m] + p;
    forall i | 0 <= i < |r| - 1 ensures DependsOn(g, r[i], r[i + 1]) {
      if i > 0 {
        assert r[i] == p[i - 1] && r[i + 1] == p[i];
      }
    }
  }

  lemma TailPath(g: Graph, m: Module, p: seq<Module>)
    requires IsPathFrom(g, m, p) && |p| > 1
    ensures DependsOn(g, m, p[1]) && IsPathFrom(g, p[1], p[1..])
  {
    forall i | 0 <= i < |p[1..]| - 1 ensures DependsOn(g, p[1..][i], p[1..][i + 1]) {
      assert DependsOn(g, p[i + 1], p[i + 2]);
    }
  }

  /** Going round a cycle gives paths of any length. */
  lemma {:induction false} RoundAndRound(g: Graph, p: seq<Module>, cycle: seq<Module>, k: nat)
          returns (long: seq<Module>)
    requires IsPath(g, p) && IsPath(g, cycle) && |cycle| > 1
    requires p[|p| - 1] == cycle[0] && cycle[|cycle| - 1] == cycle[0]
    ensures IsPathFrom(g, p[0], long) && |long| > k && long[|long| - 1] == cycle[0]
  {
    if k == 0 {
      long := p;
    } else {
      var shorter := RoundAndRound(g, p, cycle, k - 1);
      JoinPaths(g, shorter, cycle);
      long := shorter + cycle[1..];
    }
  }

  /** A module that has a level reaches no cycle. */
  lemma LevelMeansNoCycle(g: Graph, m: Module, n: nat)
    requires IsLevel(g, m, n)
    ensures !CycleReachable(g, m)
  {
    if CycleReachable(g, m) {
      var p, i, j :| IsPathFrom(g, m, p) && 0 <= i < j < |p| && p[i] == p[j];
      var cycle := p[i..j + 1];
      assert IsPath(g, cycle) by {
        forall k | 0 <= k < |cycle| - 1 ensures DependsOn(g, cycle[k], cycle[k + 1]) {
          assert DependsOn(g, p[i + k], p[i + k + 1]);
        }
      }
      var long := RoundAndRound(g, p[..i + 1], cycle, n + 1);
    }
  }

  /** A dependency has a lower level. */
  lemma DependencyIsLower(g: Graph, m: Module, d: Module, n: nat, k: nat)
    requires DependsOn(g, m, d) && IsLevel(g, m, n) && IsLevel(g, d, k)
    ensures k < n
  {
    var p :| IsPathFrom(g, d, p) && |p| == k + 1;
    StepPath(g, m, d, p);
    assert |[m] + p| == k + 2;
  }

  /** The level is one above the highest level of the dependencies; -1 stands for having none. */
  lemma LevelFromDependencies(g: Graph, m: Module, highest: int, which: Module)
    requires m in g && highest >= -1
    requires highest == -1 ==> g[m] == []
    requires highest >= 0 ==> DependsOn(g, m, which) && IsLevel(g, which, highest)
    requires forall d :: DependsOn(g, m, d) ==> exists k: nat :: k <= highest && IsLevel(g, d, k)
    ensures IsLevel(g, m, highest + 1)
  {
    forall p | IsPathFrom(g, m, p) ensures |p| <= highest + 2 {
      if |p| > 1 {
        TailPath(g, m, p);
        var k: nat :| k <= highest && IsLevel(g, p[1], k);
        assert |p[1..]| <= k + 1;
      }
    }
    if highest == -1 {
      assert IsPathFrom(g, m, [m]);
    } else {
      var p :| IsPathFrom(g, which, p) && |p| == highest + 1;
      StepPath(g, m, which, p);
    }
  }

  lemma CycleFurtherUp(g: Graph, m: Module, d: Module)
    requires DependsOn(g, m, d) && CycleReachable(g, d)
    ensures CycleReachable(g, m)
  {
    var p, i, j :| IsPathFrom(g, d, p) && 0 <= i < j < |p| && p[i] == p[j];
    StepPath(g, m, d, p);
    assert ([m] + p)[i + 1] == ([m] + p)[j + 1];
  }

  // ---------------------------------------------------------------- the search

  /** There is a path of one link or more from `v` to `m`. */
  ghost predicate Reaches(g: Graph, v: Module, m: Module) {
    exists p :: IsPathFrom(g, v, p) && |p| > 1 && p[|p| - 1] == m
  }

  lemma ReachesFurther(g: Graph, v: Module, m: Module, d: Module)
    requires (v == m || Reaches(g, v, m)) && DependsOn(g, m, d)
    ensures Reaches(g, v, d)
  {
    assert IsPath(g, [m, d]);
    if v == m {
      assert IsPathFrom(g, v, [m, d]);
    } else {
      var p :| IsPathFrom(g, v, p) && |p| > 1 && p[|p| - 1] == m;
      JoinPaths(g, p, [m, d]);
    }
  }

  lemma ReachingItselfIsCycle(g: Graph, m: Module)
    requires Reaches(g, m, m)
    ensures CycleReachable(g, m)
  {
    var p :| IsPathFrom(g, m, p) && |p| > 1 && p[|p| - 1] == m;
    assert p[0] == p[|p| - 1];
  }

  type Levels = map<Module, nat>

  /** Every level that has been stored is right. */
  ghost predicate Correct(g: Graph, levels: Levels) {
    forall m :: m in levels ==> m in g && IsLevel(g, m, levels[m])
  }

  /** The modules on the stack of the search all lead to `m`. */
  ghost predicate AllReach(g: Graph, visited: set<Module>, m: Module) {
    forall v :: v in visited ==> v in g && Reaches(g, v, m)
  }

  lemma AllReachFurther(g: Graph, visited: set<Module>, m: Module, d: Module)
    requires AllReach(g, visited, m) && DependsOn(g, m, d)
    ensures AllReach(g, visited + {m}, d)
  {
    forall v | v in visited + {m} ensures v in g && Reaches(g, v, d) {
      ReachesFurther(g, v, m, d);
    }
  }

  datatype Failure = CircularDependency | MissingDependency

  ghost predicate Grows(before: Levels, after: Levels) {
    forall m :: m in before ==> m in after && after[m] == before[m]
  }

  lemma StoredIsCorrect(g: Graph, levels: Levels, m: Module, n: nat)
    requires Correct(g, levels) && m in g && IsLevel(g, m, n)
    ensures Correct(g, levels[m := n])
    ensures forall before :: Grows(before, levels) && m !in before ==> Grows(before, levels[m := n])
  {
  }

  class LevelSearch {
    const graph: Graph
    var levels: Levels
    var visited: set<Module>

    constructor (graph: Graph)
      ensures this.graph == graph && levels == map[] && visited == {}
    {
      this.graph, levels, visited := graph, map[], {};
    }

    /**
     * The level of `m`, the length of the longest dependency path from it; it fails exactly
     * when a dependency cycle is reachable from `m`.
     */
    method ComputeModuleLevel(m: Module) returns (result: Result<nat, Failure>)
      requires Closed(graph) && m in graph && Correct(graph, levels) && AllReach(graph, visited, m)
      modifies this
      ensures Correct(graph, levels) && Grows(old(levels), levels)
      ensures result.Err? <==> CycleReachable(graph, m)
      ensures result.Ok? ==> IsLevel(graph, m, result.value) && m in levels && levels[m] == result.value
      ensures if result.Ok? then visited == old(visited) else old(visited) <= visited
      decreases |graph.Keys - visited|, 0
    {
      hide IsLevel, CycleReachable, Reaches, IsPathFrom;
      if m in levels {
        LevelMeansNoCycle(graph, m, levels[m]);
        return Ok(levels[m]);
      }
      if m in visited {
        ReachingItselfIsCycle(graph, m);
        return Err(CircularDependency);
      }
      visited := visited + {m};
      if graph[m] == [] {
        levels := levels[m := 0];
        visited := visited - {m};
        LevelFromDependencies(graph, m, -1, m);
        LevelMeansNoCycle(graph, m, 0);
        return Ok(0);
      }
      forall d | DependsOn(graph, m, d) ensures AllReach(graph, visited, d) {
        AllReachFurther(graph, old(visited), m, d);
      }
      assert graph.Keys - visited == graph.Keys - old(visited) - {m};
      hide *;
      var highest := HighestDependencyLevel(m);
      if highest.Err? {
        return highest;
      }
      var level := highest.value + 1;
      LevelMeansNoCycle(graph, m, level);
      StoredIsCorrect(graph, levels, m, level);
      levels := levels[m := level];
      visited := visited - {m};
      return Ok(level);
    }

    /** The loop of compute_module_level over the dependencies of `m`. */
    method HighestDependencyLevel(m: Module) returns (result: Result<nat, Failure>)
      requires Closed(graph) && m in graph && graph[m] != [] && Correct(graph, levels)
      requires forall d :: DependsOn(graph, m, d) ==> AllReach(graph, visited, d)
      modifies this
      ensures Correct(graph, levels) && Grows(old(levels), levels)
      ensures result.Err? ==> CycleReachable(graph, m)
      ensures result.Ok? ==> IsLevel(graph, m, result.value + 1)
      ensures if result.Ok? then visited == old(visited) else old(visited) <= visited
      decreases |graph.Keys - visited|, 1
    {
      hide IsLevel, CycleReachable, Reaches, IsPathFrom, AllReach;
      var deps := graph[m];
      var maxDepLevel: int := -1;
      ghost var which := m;
      var i := 0;
      while i < |deps|
        invariant 0 <= i <= |deps| && visited == old(visited)
        invariant Correct(graph, levels) && Grows(old(levels), levels)
        invariant maxDepLevel >= -1 && (maxDepLevel >= 0 <==> i > 0)
        invariant maxDepLevel >= 0 ==> DependsOn(graph, m, which) && IsLevel(graph, which, maxDepLevel)
        invariant forall j :: 0 <= j < i ==> deps[j] in levels && levels[deps[j]] <= maxDepLevel
      {
        assert DependsOn(graph, m, deps[i]);
        var depLevel := ComputeModuleLevel(deps[i]);
        if depLevel.Err? {
          CycleFurtherUp(graph, m, deps[i]);
          return depLevel;
        }
        if depLevel.value > maxDepLevel {
          maxDepLevel, which := depLevel.value, deps[i];
        }
        i := i + 1;
      }
      LevelFromDependencies(graph, m, maxDepLevel, which);
      return Ok(maxDepLevel);
    }
  }
}

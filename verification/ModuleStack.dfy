/** The module stack: registration, the dependency graph, and the order of the lifecycle calls. */
module ModuleStacks {
  import opened Wrappers
  import opened Basics
  import opened ModuleLevels
  import opened ModuleOrder

  /** A module type that others can look up. */
  type Kind = nat

  /** The first module of a kind, as the lookup finds it. */
  function FirstOfKind(kinds: map<Module, set<Kind>>, ms: seq<Module>, kind: Kind): Option<Module> {
    if ms == [] then None
    else if ms[0] in kinds && kind in kinds[ms[0]] then Some(ms[0])
    else FirstOfKind(kinds, ms[1..], kind)
  }

  lemma {:induction false} FirstOfKindIsFirst(kinds: map<Module, set<Kind>>, ms: seq<Module>, kind: Kind, i: nat)
    requires i < |ms| && ms[i] in kinds && kind in kinds[ms[i]]
    requires forall j :: 0 <= j < i ==> ms[j] !in kinds || kind !in kinds[ms[j]]
    ensures FirstOfKind(kinds, ms, kind) == Some(ms[i])
  {
    if i > 0 {
      FirstOfKindIsFirst(kinds, ms[1..], kind, i - 1);
    }
  }

  lemma {:induction false} NoneOfKind(kinds: map<Module, set<Kind>>, ms: seq<Module>, kind: Kind)
    requires forall m :: m in ms ==> m !in kinds || kind !in kinds[m]
    ensures FirstOfKind(kinds, ms, kind) == None
  {
    if ms != [] {
      NoneOfKind(kinds, ms[1..], kind);
    }
  }

  predicate Below(ms: seq<Module>, n: nat) {
    forall m :: m in ms ==> m < n
  }

  class ModuleStack {
    var modules: seq<Module>
    /** The dependencies of every registered module. */
    var graph: Graph
    var kinds: map<Module, set<Kind>>
    var tags: map<Module, set<Tag>>
    var nextModule: Module
    var dependencyGraph: seq<seq<Module>>
    var dependencyGraphDirty: bool
    var frameLifecycleModules: seq<Module>
    var updateModules: seq<Module>
    var guiUpdateModules: seq<Module>
    var postUpdateModules: seq<Module>

    /** The modules are exactly the ones of the graph; nothing is said about cycles. */
    ghost predicate Registered()
      reads this
    {
      && Distinct(modules) && Closed(graph)
      && (forall m :: m in modules <==> m in graph)
    }

    ghost predicate ListsInOrder()
      reads this
    {
      && DependenciesFirst(graph, frameLifecycleModules) && DependenciesFirst(graph, updateModules)
      && DependenciesFirst(graph, guiUpdateModules) && DependenciesFirst(graph, postUpdateModules)
    }

    /** What holds of every stack that is only built by AddModule. */
    ghost predicate Valid()
      reads this
    {
      && Registered() && InDependencyOrder(graph, modules) && ListsInOrder()
      && Below(modules, nextModule) && Below(frameLifecycleModules, nextModule) && Below(updateModules, nextModule)
      && Below(guiUpdateModules, nextModule) && Below(postUpdateModules, nextModule)
    }

    constructor ()
      ensures Valid() && modules == [] && dependencyGraph == [] && !dependencyGraphDirty
      ensures frameLifecycleModules == updateModules == guiUpdateModules == postUpdateModules == []
    {
      modules, graph, kinds, tags, nextModule := [], map[], map[], map[], 0;
      dependencyGraph, dependencyGraphDirty := [], false;
      frameLifecycleModules, updateModules, guiUpdateModules, postUpdateModules := [], [], [], [];
    }

    /** The lookup's search loop for one kind. */
    method FindModule(kind: Kind) returns (found: Option<Module>)
      ensures found == FirstOfKind(kinds, modules, kind)
    {
      var i := 0;
      while i < |modules|
        invariant 0 <= i <= |modules|
        invariant forall j :: 0 <= j < i ==> modules[j] !in kinds || kind !in kinds[modules[j]]
      {
        if modules[i] in kinds && kind in kinds[modules[i]] {
          FirstOfKindIsFirst(kinds, modules, kind, i);
          return Some(modules[i]);
        }
        i := i + 1;
      }
      NoneOfKind(kinds, modules, kind);
      return None;
    }

    /** The dependencies of the wanted kinds, or a failure when one of them is not registered. */
    method LookUp(wanted: seq<Kind>) returns (deps: Option<seq<Module>>)
      ensures deps.Some? <==> forall k :: k in wanted ==> FirstOfKind(kinds, modules, k).Some?
      ensures deps.Some? ==> |deps.value| == |wanted|
      ensures deps.Some? ==> forall i :: 0 <= i < |wanted| ==> 
                Some(deps.value[i]) == FirstOfKind(kinds, modules, wanted[i])
    {
      var found: seq<Option<Module>> := [];
      var i := 0;
      while i < |wanted|
        invariant 0 <= i <= |wanted| && |found| == i
        invariant forall j :: 0 <= j < i ==> found[j] == FirstOfKind(kinds, modules, wanted[j])
      {
        var m := FindModule(wanted[i]);
        found := found + [m];
        i := i + 1;
      }
      if forall j :: 0 <= j < |found| ==> found[j].Some? {
        return Some(seq(|found|, j requires 0 <= j < |found| => found[j].value));
      }
      return None;
    }

    /**
     * add_module for a module type with dependencies of the `wanted` kinds: it depends on the
     * first registered module of each kind, or is not registered at all.
     */
    method AddModule(wanted: seq<Kind>, ownKinds: set<Kind>, ownTags: set<Tag>)
      returns (result: Result<Module, Failure>)
      requires Valid()
      modifies this
      ensures Valid()
      ensures result.Err? <==> exists k :: k in wanted && FirstOfKind(old(kinds), old(modules), k) == None
      ensures result.Err? ==> modules == old(modules) && graph == old(graph) && kinds == old(kinds) && tags == old(tags)
      ensures result.Err? ==> dependencyGraphDirty == old(dependencyGraphDirty)
      ensures result.Ok? ==> result.value !in old(graph) && modules == old(modules) + [result.value]
      ensures result.Ok? ==> graph.Keys == old(graph).Keys + {result.value} && |graph[result.value]| == |wanted|
      ensures result.Ok? ==> forall i :: 0 <= i < |wanted| ==>
                Some(graph[result.value][i]) == FirstOfKind(old(kinds), old(modules), wanted[i])
      ensures result.Ok? ==> (forall m :: m in old(graph) ==> graph[m] == old(graph)[m]) && dependencyGraphDirty
      ensures result.Ok? ==> kinds == old(kinds)[result.value := ownKinds] && tags == old(tags)[result.value := ownTags]
      ensures frameLifecycleModules == old(frameLifecycleModules) && updateModules == old(updateModules)
      ensures guiUpdateModules == old(guiUpdateModules) && postUpdateModules == old(postUpdateModules)
      ensures dependencyGraph == old(dependencyGraph)
    {
      var deps := LookUp(wanted);
      if deps.None? {
        return Err(MissingDependency);
      }
      FoundAreListed(kinds, modules, wanted, deps.value);
      hide FirstOfKind, InDependencyOrder, DependenciesFirst, Distinct, Closed, DependsOn;
      var m := Register(deps.value, ownKinds, ownTags);
      return Ok(m);
    }

    /** The constructed module, with its dependencies resolved, goes to the end of the list. */
    method Register(deps: seq<Module>, ownKinds: set<Kind>, ownTags: set<Tag>) returns (m: Module)
      requires Valid() && forall d :: d in deps ==> d in modules
      modifies this`nextModule, this`graph, this`kinds, this`tags, this`modules, this`dependencyGraphDirty
      ensures Valid() && m !in old(graph) && modules == old(modules) + [m] && graph == old(graph)[m := deps]
      ensures kinds == old(kinds)[m := ownKinds] && tags == old(tags)[m := ownTags] && dependencyGraphDirty
    {
      m := nextModule;
      AddedInOrder(graph, modules, m, deps);
      OthersStayInOrder(graph, frameLifecycleModules, m, deps);
      OthersStayInOrder(graph, updateModules, m, deps);
      OthersStayInOrder(graph, guiUpdateModules, m, deps);
      OthersStayInOrder(graph, postUpdateModules, m, deps);
      hide InDependencyOrder, DependenciesFirst, Distinct, Closed, DependsOn;
      nextModule := nextModule + 1;
      graph, kinds, tags := graph[m := deps], kinds[m := ownKinds], tags[m := ownTags];
      modules := modules + [m];
      dependencyGraphDirty := true;
    }

    /** The level of every registered module, or a failure when some module reaches a cycle. */
    method ComputeLevels() returns (result: Result<Levels, Failure>)
      requires Registered()
      ensures result.Err? <==> exists m :: m in modules && CycleReachable(graph, m)
      ensures result.Ok? ==> Correct(graph, result.value) && result.value.Keys == graph.Keys
    {
      hide IsLevel, CycleReachable, Distinct, Reaches;
      var search := new LevelSearch(graph);
      var i := 0;
      while i < |modules|
        invariant 0 <= i <= |modules|
        invariant search.graph == graph && search.visited == {} && Correct(graph, search.levels)
        invariant forall j :: 0 <= j < i ==> modules[j] in search.levels && !CycleReachable(graph, modules[j])
      {
        var level := search.ComputeModuleLevel(modules[i]);
        if level.Err? {
          return Err(CircularDependency);
        }
        i := i + 1;
      }
      return Ok(search.levels);
    }

    /** The list of each tag holds exactly the modules of `ms` with that tag, in the same order. */
    ghost predicate ListsAre(ms: seq<Module>)
      reads this
    {
      && frameLifecycleModules == Tagged(tags, FrameLifecycle, ms)
      && updateModules == Tagged(tags, Update, ms)
      && guiUpdateModules == Tagged(tags, GuiUpdate, ms)
      && postUpdateModules == Tagged(tags, PostUpdate, ms)
    }

    /** Puts `m` on the list of each of its tags. */
    method ListByTag(m: Module, ghost before: seq<Module>)
      requires ListsAre(before)
      modifies this`frameLifecycleModules, this`updateModules, this`guiUpdateModules, this`postUpdateModules
      ensures ListsAre(before + [m])
    {
      assert (before + [m])[..|before|] == before;
      if m in tags && Update in tags[m] {
        updateModules := updateModules + [m];
      }
      if m in tags && FrameLifecycle in tags[m] {
        frameLifecycleModules := frameLifecycleModules + [m];
      }
      if m in tags && GuiUpdate in tags[m] {
        guiUpdateModules := guiUpdateModules + [m];
      }
      if m in tags && PostUpdate in tags[m] {
        postUpdateModules := postUpdateModules + [m];
      }
    }

    /** Rebuilds the list of each tag. */
    method RebuildLists()
      modifies this`frameLifecycleModules, this`updateModules, this`guiUpdateModules, this`postUpdateModules
      ensures ListsAre(modules)
    {
      frameLifecycleModules, updateModules, guiUpdateModules, postUpdateModules := [], [], [], [];
      var i := 0;
      while i < |modules|
        invariant 0 <= i <= |modules| && ListsAre(modules[..i])
      {
        ListByTag(modules[i], modules[..i]);
        assert modules[..i] + [modules[i]] == modules[..i + 1];
        i := i + 1;
      }
      assert modules[..|modules|] == modules;
    }

    /**
     * Rebuilds the graph, or fails when some module reaches a dependency cycle, which never
     * happens to a stack that AddModule has built.
     */
    method BuildDependencyGraph() returns (result: Result<Levels, Failure>)
      requires Registered()
      modifies this`modules, this`dependencyGraph, this`frameLifecycleModules, this`updateModules,
        this`guiUpdateModules, this`postUpdateModules
      ensures Registered()
      ensures result.Err? <==> exists m :: m in old(modules) && CycleReachable(graph, m)
      ensures result.Err? ==> modules == old(modules) && dependencyGraph == []
      ensures result.Ok? ==> multiset(modules) == multiset(old(modules)) && InDependencyOrder(graph, modules)
      ensures result.Ok? ==> Correct(graph, result.value) && result.value.Keys == graph.Keys
      ensures result.Ok? ==> PartitionedByLevel(dependencyGraph, result.value) && SortedByLevel(result.value, modules)
      ensures result.Ok? ==> ListsAre(modules) && ListsInOrder()
      ensures old(Valid()) ==> result.Ok? && Valid()
    {
      dependencyGraph := [];
      result := ComputeLevels();
      if old(Valid()) {
        NoneReachesCycle(graph, modules);
      }
      hide Distinct, Closed, Correct, InDependencyOrder, SortedByLevel, PartitionedByLevel, DependenciesFirst, Tagged,
           CycleReachable, DependsOn;
      if result.Err? {
        return;
      }
      Rebuild(result.value);
      if old(Valid()) {
        AllBelow(tags, old(modules), modules, nextModule);
      }
      hide Below;
    }

    /** The part of build_dependency_graph that follows the computation of the levels. */
    method Rebuild(levels: Levels)
      requires Registered() && Correct(graph, levels) && levels.Keys == graph.Keys
      modifies this`modules, this`dependencyGraph, this`frameLifecycleModules, this`updateModules,
        this`guiUpdateModules, this`postUpdateModules
      ensures Registered() && multiset(modules) == multiset(old(modules)) && InDependencyOrder(graph, modules)
      ensures PartitionedByLevel(dependencyGraph, levels) && SortedByLevel(levels, modules)
      ensures ListsAre(modules) && ListsInOrder()
    {
      dependencyGraph := FillBuckets(levels);
      modules := SortByLevel(levels, modules);
      RebuildLists();
      SortedStack(graph, levels, old(modules), modules);
      ListsFollow(graph, tags, modules);
      hide Distinct, Closed, Correct, InDependencyOrder, SortedByLevel, PartitionedByLevel, DependenciesFirst, Tagged;
    }

    /** The loop of begin_frame, update, gui_update and post_update over their list. */
    method CallInOrder(ms: seq<Module>) returns (visits: seq<Module>)
      ensures visits == ms
    {
      visits := [];
      var i := 0;
      while i < |ms|
        invariant 0 <= i <= |ms| && visits == ms[..i]
      {
        visits := visits + [ms[i]];
        i := i + 1;
      }
    }

    /** No module begins its frame before one that it depends on; end_frame runs the other way. */
    method BeginFrame() returns (visits: seq<Module>)
      requires ListsInOrder()
      ensures visits == frameLifecycleModules && DependenciesFirst(graph, visits)
    {
      visits := CallInOrder(frameLifecycleModules);
    }

    method CallUpdate() returns (visits: seq<Module>)
      requires ListsInOrder()
      ensures visits == updateModules && DependenciesFirst(graph, visits)
    {
      visits := CallInOrder(updateModules);
    }

    method CallGuiUpdate() returns (visits: seq<Module>)
      requires ListsInOrder()
      ensures visits == guiUpdateModules && DependenciesFirst(graph, visits)
    {
      visits := CallInOrder(guiUpdateModules);
    }

    method CallPostUpdate() returns (visits: seq<Module>)
      requires ListsInOrder()
      ensures visits == postUpdateModules && DependenciesFirst(graph, visits)
    {
      visits := CallInOrder(postUpdateModules);
    }

    /** end_frame: dependents are called before what they depend on. */
    method EndFrame() returns (visits: seq<Module>)
      requires ListsInOrder()
      ensures visits == Reverse(frameLifecycleModules) && DependentsFirst(graph, visits)
    {
      visits := [];
      ReverseTurnsOrder(graph, frameLifecycleModules);
      var i := |frameLifecycleModules|;
      while i > 0
        invariant 0 <= i <= |frameLifecycleModules|
        invariant |visits| == |frameLifecycleModules| - i
        invariant forall k :: 0 <= k < |visits| ==> visits[k] == frameLifecycleModules[|frameLifecycleModules| - 1 - k]
      {
        i := i - 1;
        visits := visits + [frameLifecycleModules[i]];
      }
      forall k | 0 <= k < |visits| ensures visits[k] == Reverse(frameLifecycleModules)[k] {
        ReverseAt(frameLifecycleModules, k);
      }
    }

    /**
     * Destroys the modules, dependents before what they depend on.  The tag lists keep the
     * destroyed modules until the next rebuild.
     */
    method Clean() returns (destroyed: seq<Module>)
      requires Valid()
      modifies this`modules, this`graph, this`kinds, this`tags
      ensures modules == [] && graph == map[] && Valid()
      ensures destroyed == Reverse(old(modules)) && DependentsFirst(old(graph), destroyed)
    {
      OrderPutsDependenciesFirst(graph, modules);
      ReverseTurnsOrder(graph, modules);
      destroyed := [];
      var i := |modules|;
      while i > 0
        invariant 0 <= i <= |modules| && modules == old(modules) && graph == old(graph)
        invariant |destroyed| == |modules| - i
        invariant forall k :: 0 <= k < |destroyed| ==> destroyed[k] == modules[|modules| - 1 - k]
      {
        i := i - 1;
        destroyed := destroyed + [modules[i]];
      }
      forall k | 0 <= k < |destroyed| ensures destroyed[k] == Reverse(modules)[k] {
        ReverseAt(modules, k);
      }
      modules, graph, kinds, tags := [], map[], map[], map[];
    }
  }

  lemma SortedStack(g: Graph, levels: Levels, before: seq<Module>, ms: seq<Module>)
    requires Distinct(before) && Closed(g) && forall m :: m in before <==> m in g
    requires Correct(g, levels) && SortedByLevel(levels, ms) && multiset(ms) == multiset(before)
    ensures Distinct(ms) && InDependencyOrder(g, ms) && forall m :: m in ms <==> m in g
  {
    PermutedIsDistinct(before, ms);
    DependenciesAreListed(g, ms);
    SortedIsInOrder(g, levels, ms);
  }

  lemma AllBelow(tags: map<Module, set<Tag>>, before: seq<Module>, ms: seq<Module>, n: nat)
    requires Below(before, n) && multiset(ms) == multiset(before)
    ensures Below(ms, n) && forall t :: Below(Tagged(tags, t, ms), n)
  {
    forall m | m in ms ensures m < n {
      assert m in multiset(ms) && m in before;
    }
    forall t ensures Below(Tagged(tags, t, ms), n) {
      forall m | m in Tagged(tags, t, ms) ensures m < n {
        TaggedHas(tags, t, ms, m);
      }
    }
  }

  lemma ListsFollow(g: Graph, tags: map<Module, set<Tag>>, ms: seq<Module>)
    requires InDependencyOrder(g, ms) && Distinct(ms)
    ensures forall t :: DependenciesFirst(g, Tagged(tags, t, ms))
  {
    OrderPutsDependenciesFirst(g, ms);
    forall t ensures DependenciesFirst(g, Tagged(tags, t, ms)) {
      TaggedInOrder(g, tags, t, ms);
    }
  }

  lemma {:induction false} FoundIsListed(kinds: map<Module, set<Kind>>, ms: seq<Module>, kind: Kind)
    requires FirstOfKind(kinds, ms, kind).Some?
    ensures FirstOfKind(kinds, ms, kind).value in ms
  {
    if !(ms[0] in kinds && kind in kinds[ms[0]]) {
      FoundIsListed(kinds, ms[1..], kind);
    }
  }

  lemma FoundAreListed(kinds: map<Module, set<Kind>>, ms: seq<Module>, wanted: seq<Kind>, deps: seq<Module>)
    requires |deps| == |wanted|
    requires forall i :: 0 <= i < |wanted| ==> Some(deps[i]) == FirstOfKind(kinds, ms, wanted[i])
    ensures forall d :: d in deps ==> d in ms
  {
    forall d | d in deps ensures d in ms {
      var i :| 0 <= i < |wanted| && deps[i] == d;
      FoundIsListed(kinds, ms, wanted[i]);
    }
  }

  lemma NoneReachesCycle(g: Graph, ms: seq<Module>)
    requires InDependencyOrder(g, ms) && Distinct(ms)
    ensures !exists m :: m in ms && CycleReachable(g, m)
  {
    forall m | m in ms ensures !CycleReachable(g, m) {
      var i :| 0 <= i < |ms| && ms[i] == m;
      OrderMeansNoCycle(g, ms, i);
    }
  }

  lemma PermutedIsDistinct(a: seq<Module>, b: seq<Module>)
    requires Distinct(a) && multiset(a) == multiset(b)
    ensures Distinct(b) && |a| == |b| && forall m :: m in a <==> m in b
  {
    forall m ensures m in a <==> m in b {
      assert m in multiset(a) <==> m in multiset(b);
    }
    forall i, j | 0 <= i < j < |b| ensures b[i] != b[j] {
      AtMostOnce(a, b[i]);
      TwiceCounts(b, i, j);
    }
  }

  lemma {:induction false} AtMostOnce(a: seq<Module>, m: Module)
    requires Distinct(a)
    ensures multiset(a)[m] <= 1
  {
    if a != [] {
      AtMostOnce(a[1..], m);
      assert a == [a[0]] + a[1..];
    }
  }

  lemma TwiceCounts(b: seq<Module>, i: nat, j: nat)
    requires i < j < |b|
    ensures b[i] == b[j] ==> multiset(b)[b[i]] >= 2
  {
    assert b == b[..i] + [b[i]] + b[i + 1..j] + [b[j]] + b[j + 1..];
  }

  lemma DependenciesAreListed(g: Graph, ms: seq<Module>)
    requires Closed(g) && forall m :: m in ms <==> m in g
    ensures forall m, d :: m in ms && DependsOn(g, m, d) ==> d in ms
  {
  }

  /** A new module that depends on registered ones goes last. */
  lemma AddedInOrder(g: Graph, ms: seq<Module>, m: Module, deps: seq<Module>)
    requires InDependencyOrder(g, ms) && Distinct(ms) && Closed(g) && m !in g && m !in ms
    requires forall x :: x in ms <==> x in g
    requires forall d :: d in deps ==> d in ms
    ensures InDependencyOrder(g[m := deps], ms + [m]) && Distinct(ms + [m]) && Closed(g[m := deps])
  {
    var after, more := g[m := deps], ms + [m];
    forall i, d | 0 <= i < |more| && DependsOn(after, more[i], d) ensures d in more[..i] {
      if i < |ms| {
        assert more[i] == ms[i] && DependsOn(g, ms[i], d);
        assert more[..i] == ms[..i];
      } else {
        assert more[..i] == ms;
      }
    }
    forall x, i | x in after && 0 <= i < |after[x]| ensures after[x][i] in after {
      if x == m {
        assert after[x][i] in deps;
      }
    }
  }

  /** A new module disturbs no list that it is not in. */
  lemma OthersStayInOrder(g: Graph, ms: seq<Module>, m: Module, deps: seq<Module>)
    requires DependenciesFirst(g, ms) && m !in ms
    ensures DependenciesFirst(g[m := deps], ms)
  {
    forall i, j | 0 <= i < j < |ms| ensures !DependsOn(g[m := deps], ms[i], ms[j]) {
      assert ms[i] != m && !DependsOn(g, ms[i], ms[j]);
    }
  }
}

/** Ancestors, cycles, and the depth-first order of an entity's descendants. */
module EntityOrder {
  import opened Wrappers
  import opened Basics
  import opened EntityForest

  // ---------------------------------------------------------------- parent chains

  /** The entity `n` links up the parent chain from `x`. */
  function Up(rel: Links, x: Entity, n: nat): Option<Entity>
    decreases n
  {
    if n == 0 then Some(x)
    else if x in rel && rel[x].parent.Some? then Up(rel, rel[x].parent.value, n - 1)
    else None
  }

  /** `y` is `x` itself or one of its ancestors. */
  ghost predicate OnChain(rel: Links, x: Entity, y: Entity) {
    exists n: nat :: Up(rel, x, n) == Some(y)
  }

  ghost predicate ProperAncestor(rel: Links, y: Entity, x: Entity) {
    exists n: nat :: n > 0 && Up(rel, x, n) == Some(y)
  }

  type Heights = map<Entity, nat>

  function Height(h: Heights, x: Entity): nat {
    if x in h then h[x] else 0
  }

  /** Every entity is lower than its parent. */
  ghost predicate Ranked(rel: Links, h: Heights) {
    forall x :: x in rel && rel[x].parent.Some? ==> Height(h, x) < Height(h, rel[x].parent.value)
  }

  ghost predicate Acyclic(rel: Links) {
    exists h :: Ranked(rel, h)
  }

  lemma {:induction false} ClimbingRaises(rel: Links, h: Heights, x: Entity, n: nat, y: Entity)
    requires Ranked(rel, h) && Up(rel, x, n) == Some(y)
    ensures if n == 0 then x == y else Height(h, x) < Height(h, y)
    decreases n
  {
    if n > 0 {
      ClimbingRaises(rel, h, rel[x].parent.value, n - 1, y);
    }
  }

  /** No entity of an acyclic registry is its own ancestor. */
  lemma AcyclicHasNoCycle(rel: Links, x: Entity)
    requires Acyclic(rel)
    ensures !ProperAncestor(rel, x, x)
  {
    var h :| Ranked(rel, h);
    forall n: nat | n > 0 ensures Up(rel, x, n) != Some(x) {
      if Up(rel, x, n) == Some(x) {
        ClimbingRaises(rel, h, x, n, x);
      }
    }
  }

  lemma {:induction false} UpFurther(rel: Links, x: Entity, n: nat, y: Entity, m: nat)
    requires Up(rel, x, n) == Some(y)
    ensures Up(rel, x, n + m) == Up(rel, y, m)
    decreases n
  {
    if n > 0 {
      UpFurther(rel, rel[x].parent.value, n - 1, y, m);
    }
  }

  // ---------------------------------------------------------------- giving an entity a new parent

  /** Nothing but the parent of `x` has changed; components may have been added. */
  ghost predicate Reparented(rel: Links, after: Links, x: Entity, parent: Option<Entity>) {
    && rel.Keys <= after.Keys && x in after
    && forall y :: y in after ==>
         after[y].parent == if y == x then parent else if y in rel then rel[y].parent else None
  }

  lemma {:induction false} ChainSurvives(rel: Links, after: Links, x: Entity, parent: Option<Entity>, y: Entity, n: nat)
    returns (m: nat)
    requires Reparented(rel, after, x, parent) && Up(rel, y, n) == Some(x)
    ensures Up(after, y, m) == Some(x)
    decreases n
  {
    m := 0;
    if y != x {
      m := ChainSurvives(rel, after, x, parent, rel[y].parent.value, n - 1);
      m := m + 1;
    }
  }

  /** A new parent that is the entity itself, or below it, closes a cycle through the entity. */
  lemma CycleIsClosed(rel: Links, after: Links, x: Entity, p: Entity)
    requires Reparented(rel, after, x, Some(p)) && OnChain(rel, p, x)
    ensures ProperAncestor(after, x, x)
  {
    var n: nat :| Up(rel, p, n) == Some(x);
    var m := ChainSurvives(rel, after, x, Some(p), p, n);
    assert Up(after, x, m + 1) == Some(x);
  }

  ghost function Lifted(rel: Links, after: Links, h: Heights, x: Entity, p: Entity): Heights {
    map y | y in after.Keys + {p} :: if OnChain(rel, p, y) then Height(h, y) + Height(h, x) + 1 else Height(h, y)
  }

  lemma ParentOnChain(rel: Links, p: Entity, y: Entity, q: Entity)
    requires OnChain(rel, p, y) && y in rel && rel[y].parent == Some(q)
    ensures OnChain(rel, p, q)
  {
    var n: nat :| Up(rel, p, n) == Some(y);
    UpFurther(rel, p, n, y, 1);
    assert Up(rel, y, 1) == Some(q);
  }

  /** Any other new parent leaves an acyclic registry acyclic. */
  lemma StaysRanked(rel: Links, after: Links, h: Heights, x: Entity, p: Entity)
    requires Ranked(rel, h) && Reparented(rel, after, x, Some(p)) && !OnChain(rel, p, x)
    requires forall y :: y in after && after[y].parent.Some? ==> after[y].parent.value in after
    ensures Ranked(after, Lifted(rel, after, h, x, p))
  {
    assert Up(rel, p, 0) == Some(p);
    forall y | y in after && after[y].parent.Some?
      ensures Height(Lifted(rel, after, h, x, p), y) < Height(Lifted(rel, after, h, x, p), after[y].parent.value)
    {
      if y != x && OnChain(rel, p, y) {
        ParentOnChain(rel, p, y, after[y].parent.value);
      }
    }
  }

  lemma RootStaysRanked(rel: Links, after: Links, h: Heights, x: Entity)
    requires Ranked(rel, h) && Reparented(rel, after, x, None)
    ensures Ranked(after, h)
  {
  }

  /**
   * Moving `x` below `parent` keeps the registry acyclic exactly when the new parent is neither
   * `x` nor one of its descendants.
   */
  lemma AcyclicUnlessBelow(rel: Links, after: Links, x: Entity, parent: Option<Entity>)
    requires Acyclic(rel) && Reparented(rel, after, x, parent)
    requires forall y :: y in after && after[y].parent.Some? ==> after[y].parent.value in after
    ensures Acyclic(after) <==> (parent.Some? ==> !OnChain(rel, parent.value, x))
  {
    var h :| Ranked(rel, h);
    if parent.None? {
      RootStaysRanked(rel, after, h, x);
    } else if OnChain(rel, parent.value, x) {
      CycleIsClosed(rel, after, x, parent.value);
      if Acyclic(after) {
        AcyclicHasNoCycle(after, x);
      }
    } else {
      StaysRanked(rel, after, h, x, parent.value);
    }
  }

  // ---------------------------------------------------------------- depth-first order

  /** Every child is lower than its parent. */
  ghost predicate Falls(kids: Children, h: Heights) {
    forall p, i :: p in kids && 0 <= i < |kids[p]| ==> Height(h, kids[p][i]) < Height(h, p)
  }

  lemma RankedFalls(rel: Links, kids: Children, h: Heights)
    requires Shape(rel, kids) && Ranked(rel, h)
    ensures Falls(kids, h)
  {
    forall p, i | p in kids && 0 <= i < |kids[p]| ensures Height(h, kids[p][i]) < Height(h, p) {
      LinkOf(rel, kids, p, i);
    }
  }

  function ChildrenOf(kids: Children, x: Entity): seq<Entity> {
    if x in kids then kids[x] else []
  }

  ghost function Highest(h: Heights, ks: seq<Entity>): (m: nat)
    ensures forall k :: k in ks ==> Height(h, k) <= m
    ensures ks != [] ==> exists k :: k in ks && m == Height(h, k)
  {
    if ks == [] then 0
    else
      var rest := Highest(h, ks[1..]);
      if Height(h, ks[0]) > rest || |ks| == 1 then Height(h, ks[0]) else rest
  }

  /** The entities of `ks`, each followed by all its descendants, depth first. */
  ghost function Trees(kids: Children, h: Heights, ks: seq<Entity>): seq<Entity>
    requires Falls(kids, h)
    decreases Highest(h, ks), |ks|
  {
    if ks == [] then []
    else [ks[0]] + Trees(kids, h, ChildrenOf(kids, ks[0])) + Trees(kids, h, ks[1..])
  }

  /** The descendants of `x` in depth-first order. */
  ghost function Descendants(kids: Children, h: Heights, x: Entity): seq<Entity>
    requires Falls(kids, h)
  {
    Trees(kids, h, ChildrenOf(kids, x))
  }

  lemma {:induction false} TreesOfBoth(kids: Children, h: Heights, a: seq<Entity>, b: seq<Entity>)
    requires Falls(kids, h)
    ensures Trees(kids, h, a + b) == Trees(kids, h, a) + Trees(kids, h, b)
    decreases |a|
  {
    if a == [] {
      assert a + b == b;
    } else {
      TreesOfBoth(kids, h, a[1..], b);
      assert (a + b)[1..] == a[1..] + b;
      assert Trees(kids, h, a + b) == [a[0]] + Trees(kids, h, ChildrenOf(kids, a[0])) + Trees(kids, h, a[1..] + b);
      hide *;
    }
  }

  lemma TreeIsIncluded(kids: Children, h: Heights, ks: seq<Entity>, k: Entity)
    requires Falls(kids, h) && k in ks
    ensures k in Trees(kids, h, ks)
    ensures forall y :: y in Descendants(kids, h, k) ==> y in Trees(kids, h, ks)
  {
    var i :| 0 <= i < |ks| && ks[i] == k;
    TreesOfBoth(kids, h, ks[..i], ks[i..]);
    assert ks == ks[..i] + ks[i..] && ks[i..][0] == k;
  }

  /** Whatever climbs to a child of `p` climbs on to `p`. */
  lemma ClimbOn(rel: Links, kids: Children, p: Entity, c: Entity, y: Entity, n: nat)
    requires Shape(rel, kids) && c in ChildrenOf(kids, p) && Up(rel, y, n) == Some(c)
    ensures Up(rel, y, n + 1) == Some(p)
  {
    var i :| 0 <= i < |kids[p]| && kids[p][i] == c;
    LinkOf(rel, kids, p, i);
    hide Shape;
    UpFurther(rel, y, n, c, 1);
    assert Up(rel, c, 1) == Up(rel, p, 0);
  }

  /** Every entity in the depth-first order climbs to one of its roots. */
  lemma {:induction false} TreesClimb(rel: Links, kids: Children, h: Heights, ks: seq<Entity>, y: Entity)
    returns (k: Entity, n: nat)
    requires Shape(rel, kids) && Falls(kids, h) && y in Trees(kids, h, ks)
    ensures k in ks && Up(rel, y, n) == Some(k)
    decreases Highest(h, ks), |ks|
  {
    hide Shape;
    if y == ks[0] {
      k, n := y, 0;
    } else if y in Trees(kids, h, ks[1..]) {
      k, n := TreesClimb(rel, kids, h, ks[1..], y);
    } else {
      var c;
      c, n := TreesClimb(rel, kids, h, ChildrenOf(kids, ks[0]), y);
      ClimbOn(rel, kids, ks[0], c, y, n);
      k, n := ks[0], n + 1;
    }
  }

  /** Every entity that climbs to `k` is `k` or one of its descendants. */
  lemma {:induction false} ClimbersAreInTree(rel: Links, kids: Children, h: Heights, k: Entity, y: Entity, n: nat)
    requires Shape(rel, kids) && Falls(kids, h) && n > 0 && Up(rel, y, n) == Some(k)
    ensures y in Descendants(kids, h, k)
    decreases n
  {
    var p := rel[y].parent.value;
    assert Placed(rel, kids, y);
    TreeIsIncluded(kids, h, ChildrenOf(kids, p), y);
    if n > 1 {
      ClimbersAreInTree(rel, kids, h, k, p, n - 1);
      DescendantsOfDescendant(rel, kids, h, k, p, y);
    }
  }

  lemma {:induction false} DescendantsOfDescendant(rel: Links, kids: Children, h: Heights, k: Entity, p: Entity,
          y: Entity)
    requires Shape(rel, kids) && Falls(kids, h) && p in Descendants(kids, h, k) && y in Descendants(kids, h, p)
    ensures y in Descendants(kids, h, k)
  {
    WithinTrees(kids, h, ChildrenOf(kids, k), p, y);
  }

  lemma {:induction false} WithinTrees(kids: Children, h: Heights, ks: seq<Entity>, p: Entity, y: Entity)
    requires Falls(kids, h) && p in Trees(kids, h, ks) && y in Descendants(kids, h, p)
    ensures y in Trees(kids, h, ks)
    decreases Highest(h, ks), |ks|
  {
    if p != ks[0] {
      if p in Trees(kids, h, ks[1..]) {
        WithinTrees(kids, h, ks[1..], p, y);
      } else {
        WithinTrees(kids, h, ChildrenOf(kids, ks[0]), p, y);
      }
    }
  }

  /** The descendants of `x` are exactly the entities with `x` further up their parent chain. */
  lemma DescendantsAreBelow(rel: Links, kids: Children, h: Heights, x: Entity, y: Entity)
    requires Shape(rel, kids) && Falls(kids, h)
    ensures y in Descendants(kids, h, x) <==> ProperAncestor(rel, x, y)
  {
    hide Shape, Falls;
    if y in Descendants(kids, h, x) {
      var k, n := TreesClimb(rel, kids, h, ChildrenOf(kids, x), y);
      ClimbOn(rel, kids, x, k, y, n);
    }
    if ProperAncestor(rel, x, y) {
      var n: nat :| n > 0 && Up(rel, y, n) == Some(x);
      ClimbersAreInTree(rel, kids, h, x, y, n);
    }
  }

  // ---------------------------------------------------------------- each descendant once

  lemma DistinctParts(x: Entity, a: seq<Entity>, b: seq<Entity>)
    requires Distinct(a) && Distinct(b) && x !in a && x !in b && forall y :: y in a ==> y !in b
    ensures Distinct([x] + a + b)
  {
    var s := [x] + a + b;
    forall i, j | 0 <= i < j < |s| ensures s[i] != s[j] {
      if i == 0 {
        assert s[j] in a || s[j] in b;
      } else if i <= |a| < j {
        assert s[i] in a && s[j] in b;
      }
    }
  }

  /** No entity climbs to two children of `p`. */
  lemma OneBranch(rel: Links, kids: Children, h: Heights, p: Entity, i: nat, j: nat, y: Entity, n: nat, m: nat)
    requires Shape(rel, kids) && Ranked(rel, h) && p in kids && i < |kids[p]| && j < |kids[p]| && n <= m
    requires Up(rel, y, n) == Some(kids[p][i]) && Up(rel, y, m) == Some(kids[p][j])
    ensures i == j
  {
    LinkOf(rel, kids, p, i);
    LinkOf(rel, kids, p, j);
    UpFurther(rel, y, n, kids[p][i], m - n);
    if n == m {
      InOneListOnce(rel, kids, p, i, p, j);
    } else {
      hide Shape;
      ClimbingRaises(rel, h, p, m - n - 1, kids[p][j]);
    }
  }

  lemma TreesApart(rel: Links, kids: Children, h: Heights, p: Entity, i: nat, y: Entity)
    requires Shape(rel, kids) && Ranked(rel, h) && Falls(kids, h) && p in kids && i < |kids[p]|
    requires y in Trees(kids, h, kids[p][i + 1..])
    ensures y != kids[p][i] && y !in Descendants(kids, h, kids[p][i])
  {
    hide Shape, Ranked, Falls, Trees, Up;
    var k, m := TreesClimb(rel, kids, h, kids[p][i + 1..], y);
    var j :| i + 1 <= j < |kids[p]| && kids[p][j] == k;
    if y == kids[p][i] {
      SelfUp(rel, y);
      OneBranch(rel, kids, h, p, i, j, y, 0, m);
    } else if y in Descendants(kids, h, kids[p][i]) {
      var c, n := TreesClimb(rel, kids, h, ChildrenOf(kids, kids[p][i]), y);
      ClimbOn(rel, kids, kids[p][i], c, y, n);
      if n + 1 <= m {
        OneBranch(rel, kids, h, p, i, j, y, n + 1, m);
      } else {
        OneBranch(rel, kids, h, p, j, i, y, m, n + 1);
      }
    }
  }

  lemma SelfUp(rel: Links, y: Entity)
    ensures Up(rel, y, 0) == Some(y)
  {
  }

  lemma NotBelowItself(rel: Links, kids: Children, h: Heights, x: Entity)
    requires Shape(rel, kids) && Ranked(rel, h) && Falls(kids, h)
    ensures x !in Descendants(kids, h, x)
  {
    DescendantsAreBelow(rel, kids, h, x, x);
    AcyclicHasNoCycle(rel, x);
  }

  lemma {:induction false} SiblingTreesDistinct(rel: Links, kids: Children, h: Heights, p: Entity, i: nat)
    requires Shape(rel, kids) && Ranked(rel, h) && Falls(kids, h) && p in kids && i <= |kids[p]|
    ensures Distinct(Trees(kids, h, kids[p][i..]))
    decreases Height(h, p), |kids[p]| - i
  {
    hide Shape, Ranked, Distinct;
    if i < |kids[p]| {
      var k, rest := kids[p][i], kids[p][i + 1..];
      assert kids[p][i..] == [k] + rest && kids[p][i..][1..] == rest;
      SiblingTreesDistinct(rel, kids, h, p, i + 1);
      DescendantsDistinct(rel, kids, h, k);
      NotBelowItself(rel, kids, h, k);
      forall y | y in Trees(kids, h, rest) ensures y != k && y !in Descendants(kids, h, k) {
        TreesApart(rel, kids, h, p, i, y);
      }
      DistinctParts(k, Descendants(kids, h, k), Trees(kids, h, rest));
    } else {
      NoneDistinct();
    }
  }

  lemma NoneDistinct()
    ensures Distinct<Entity>([])
  {
  }

  /** No descendant comes twice. */
  lemma {:induction false} DescendantsDistinct(rel: Links, kids: Children, h: Heights, x: Entity)
    requires Shape(rel, kids) && Ranked(rel, h) && Falls(kids, h)
    ensures Distinct(Descendants(kids, h, x))
    decreases Height(h, x), if x in kids then |kids[x]| + 1 else 0
  {
    if x in kids {
      SiblingTreesDistinct(rel, kids, h, x, 0);
      assert kids[x][0..] == kids[x];
    }
  }

  function Elements(s: seq<Entity>): set<Entity> {
    set y | y in s
  }

  lemma {:induction false} DistinctSize(s: seq<Entity>)
    requires Distinct(s)
    ensures |Elements(s)| == |s|
  {
    if s != [] {
      var first, rest := s[0], s[1..];
      assert s == [first] + rest;
      assert first !in Elements(rest) && Distinct(rest);
      DistinctSize(rest);
      assert Elements(s) == {first} + Elements(rest);
    }
  }

  lemma InSubtree(rel: Links, kids: Children, h: Heights, x: Entity, y: Entity)
    requires Shape(rel, kids) && Falls(kids, h) && x in rel
    ensures y == x || y in Descendants(kids, h, x) <==> y in rel && OnChain(rel, y, x)
  {
    DescendantsAreBelow(rel, kids, h, x, y);
    SelfUp(rel, y);
    hide Shape, Falls, Descendants;
  }

  /** There are as many descendants as entities in the subtree, less one for `x` itself. */
  lemma DescendantsCounted(rel: Links, kids: Children, h: Heights, x: Entity)
    requires Shape(rel, kids) && Ranked(rel, h) && Falls(kids, h) && x in rel
    ensures |Descendants(kids, h, x)| + 1 == |set y | y in rel && OnChain(rel, y, x)|
  {
    hide Shape, Ranked, Falls, Descendants, OnChain, Distinct;
    var order := Descendants(kids, h, x);
    DescendantsDistinct(rel, kids, h, x);
    DistinctSize(order);
    NotBelowItself(rel, kids, h, x);
    forall y ensures y == x || y in order <==> y in rel && OnChain(rel, y, x) {
      InSubtree(rel, kids, h, x, y);
    }
    assert (set y | y in rel && OnChain(rel, y, x)) == {x} + Elements(order) && x !in Elements(order);
  }
}

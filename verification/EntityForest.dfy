/**
 * Entities linked to a parent and to their siblings, as the relationship components store it,
 * and the child sequences that the links describe.
 */
module EntityForest {
  import opened Wrappers

  type Entity = nat

  /** A relationship component; None is the null entity. */
  datatype Rel = Rel(children: nat, first: Option<Entity>, prev: Option<Entity>,
                     next: Option<Entity>, parent: Option<Entity>)

  /** A component that has just been added. */
  const ALONE := Rel(0, None, None, None, None)

  type Links = map<Entity, Rel>
  type Children = map<Entity, seq<Entity>>

  function Nth(ks: seq<Entity>, i: int): Option<Entity> {
    if 0 <= i < |ks| then Some(ks[i]) else None
  }

  /** The component of `p` has the count and the first of its child sequence. */
  predicate HeadAgrees(rel: Links, kids: Children, p: Entity)
    requires p in rel && p in kids
  {
    rel[p].children == |kids[p]| && rel[p].first == Nth(kids[p], 0)
  }

  /** The i-th child of `p` points back to `p` and to its neighbours. */
  predicate LinkAgrees(rel: Links, kids: Children, p: Entity, i: nat)
    requires p in kids && i < |kids[p]|
  {
    var x := kids[p][i];
    && x in rel
    && rel[x].parent == Some(p) && rel[x].prev == Nth(kids[p], i - 1) && rel[x].next == Nth(kids[p], i + 1)
  }

  /** An entity is in its parent's child sequence; one without a parent has no siblings. */
  predicate Placed(rel: Links, kids: Children, x: Entity)
    requires x in rel
  {
    match rel[x].parent
    case None => rel[x].prev == None && rel[x].next == None
    case Some(p) => p in kids && x in kids[p]
  }

  ghost predicate Shape(rel: Links, kids: Children) {
    && rel.Keys == kids.Keys
    && (forall p :: p in rel ==> HeadAgrees(rel, kids, p))
    && (forall p, i :: p in kids && 0 <= i < |kids[p]| ==> LinkAgrees(rel, kids, p, i))
    && (forall x :: x in rel ==> Placed(rel, kids, x))
  }

  // ---------------------------------------------------------------- what the links determine

  lemma LinkOf(rel: Links, kids: Children, p: Entity, i: nat)
    requires Shape(rel, kids) && p in kids && i < |kids[p]|
    ensures LinkAgrees(rel, kids, p, i)
  {
  }

  lemma {:induction false} NoRepeats(rel: Links, kids: Children, p: Entity, i: nat, j: nat)
    requires Shape(rel, kids) && p in kids && i < j < |kids[p]|
    ensures kids[p][i] != kids[p][j]
  {
    hide Shape;
    LinkOf(rel, kids, p, i);
    LinkOf(rel, kids, p, j);
    if i > 0 {
      NoRepeats(rel, kids, p, i - 1, j - 1);
    }
  }

  /** No entity is twice in a child sequence, or in two of them. */
  lemma InOneListOnce(rel: Links, kids: Children, p: Entity, i: nat, q: Entity, j: nat)
    requires Shape(rel, kids)
    requires p in kids && i < |kids[p]| && q in kids && j < |kids[q]| && kids[p][i] == kids[q][j]
    ensures p == q && i == j
  {
    assert LinkAgrees(rel, kids, p, i) && LinkAgrees(rel, kids, q, j);
    if i < j {
      NoRepeats(rel, kids, p, i, j);
    } else if j < i {
      NoRepeats(rel, kids, p, j, i);
    }
  }

  /** From one child the links lead to the next. */
  lemma SiblingLink(rel: Links, kids: Children, p: Entity, i: nat)
    requires Shape(rel, kids) && p in kids && i < |kids[p]|
    ensures kids[p][i] in rel && rel[kids[p][i]].next == Nth(kids[p], i + 1)
    ensures rel[kids[p][i]].parent == Some(p)
  {
    LinkOf(rel, kids, p, i);
  }

  /** From the parent the links lead to the first child. */
  lemma HeadOf(rel: Links, kids: Children, p: Entity)
    requires Shape(rel, kids) && p in rel
    ensures p in kids && rel[p].children == |kids[p]| && rel[p].first == Nth(kids[p], 0)
  {
    assert HeadAgrees(rel, kids, p);
  }

  lemma PlacedOf(rel: Links, kids: Children, x: Entity)
    requires Shape(rel, kids) && x in rel
    ensures Placed(rel, kids, x)
  {
  }

  lemma SomeNth(a: seq<Entity>, b: seq<Entity>, i: nat)
    requires Nth(a, i) == Nth(b, i) && i < |a|
    ensures i < |b| && a[i] == b[i]
  {
  }

  lemma {:induction false} SameChild(rel: Links, a: Children, b: Children, p: Entity, i: nat)
    requires Shape(rel, a) && Shape(rel, b) && p in rel && i < |a[p]|
    ensures i < |b[p]| && a[p][i] == b[p][i]
  {
    hide Shape;
    HeadOf(rel, a, p);
    HeadOf(rel, b, p);
    if i == 0 {
      SomeNth(a[p], b[p], 0);
    } else {
      SameChild(rel, a, b, p, i - 1);
      SiblingLink(rel, a, p, i - 1);
      SiblingLink(rel, b, p, i - 1);
      SomeNth(a[p], b[p], i);
    }
  }

  /** The links determine every child sequence. */
  lemma LinksDetermineChildren(rel: Links, a: Children, b: Children)
    requires Shape(rel, a) && Shape(rel, b)
    ensures a == b
  {
    forall p | p in rel
      ensures a[p] == b[p]
    {
      assert HeadAgrees(rel, a, p) && HeadAgrees(rel, b, p);
      forall i | 0 <= i < |a[p]| ensures a[p][i] == b[p][i] {
        SameChild(rel, a, b, p, i);
      }
    }
  }

  // ---------------------------------------------------------------- changes to the child sequences

  function WithComponent(kids: Children, x: Entity): Children {
    if x in kids then kids else kids[x := []]
  }

  /** The sequence without `x`, otherwise in the same order. */
  function Minus(ks: seq<Entity>, x: Entity): seq<Entity> {
    if ks == [] then [] else if ks[0] == x then ks[1..] else [ks[0]] + Minus(ks[1..], x)
  }

  function Detached(kids: Children, p: Entity, x: Entity): Children
    requires p in kids
  {
    kids[p := Minus(kids[p], x)]
  }

  function Attached(kids: Children, p: Entity, x: Entity): Children
    requires p in kids
  {
    kids[p := kids[p] + [x]]
  }

  lemma {:induction false} MinusAt(ks: seq<Entity>, i: nat)
    requires i < |ks| && ks[i] !in ks[..i]
    ensures Minus(ks, ks[i]) == ks[..i] + ks[i + 1..]
  {
    if i > 0 {
      assert ks[0] == ks[..i][0];
      assert ks[1..][..i - 1] == ks[..i][1..];
      MinusAt(ks[1..], i - 1);
    }
  }

  lemma AddedKeepsShape(rel: Links, kids: Children, x: Entity)
    requires Shape(rel, kids) && x !in rel
    ensures Shape(rel[x := ALONE], kids[x := []])
  {
    var after, next := rel[x := ALONE], kids[x := []];
    forall p | p in after ensures HeadAgrees(after, next, p) {
      assert p != x ==> HeadAgrees(rel, kids, p);
    }
    forall p, i | p in next && 0 <= i < |next[p]| ensures LinkAgrees(after, next, p, i) {
      assert LinkAgrees(rel, kids, p, i);
    }
    forall y | y in after ensures Placed(after, next, y) {
      assert y != x ==> Placed(rel, kids, y);
    }
  }

  // ---------------------------------------------------------------- taking a child out

  /** The component of `y` after `x`, the i-th child of `p`, has been taken out. */
  function AfterRemove(rel: Links, p: Entity, x: Entity, y: Entity): Rel
    requires x in rel && y in rel
  {
    Rel(if y == p then Less(rel[y].children) else rel[y].children,
        if y == p && rel[x].prev == None then rel[x].next else rel[y].first,
        if y == x then None else if rel[x].next == Some(y) then rel[x].prev else rel[y].prev,
        if y == x then None else if rel[x].prev == Some(y) then rel[x].next else rel[y].next,
        if y == x then None else rel[y].parent)
  }

  function Less(n: nat): nat { if n == 0 then 0 else n - 1 }

  predicate Removed(rel: Links, after: Links, p: Entity, x: Entity)
    requires x in rel
  {
    after.Keys == rel.Keys && forall y :: y in rel ==> after[y] == AfterRemove(rel, p, x, y)
  }

  /** Where the child that is j-th afterwards was before. */
  function Before(i: nat, j: nat): nat { if j < i then j else j + 1 }

  /** Only its neighbours in the sequence are linked to a child. */
  lemma Neighbours(rel: Links, kids: Children, p: Entity, i: nat, k: nat)
    requires Shape(rel, kids) && p in kids && i < |kids[p]| && k < |kids[p]| && i != k
    ensures LinkAgrees(rel, kids, p, i) && LinkAgrees(rel, kids, p, k)
    ensures kids[p][k] != kids[p][i]
    ensures rel[kids[p][i]].next == Some(kids[p][k]) <==> k == i + 1
    ensures rel[kids[p][i]].prev == Some(kids[p][k]) <==> k == i - 1
  {
    LinkOf(rel, kids, p, i);
    LinkOf(rel, kids, p, k);
    NoRepeats(rel, kids, p, if i < k then i else k, if i < k then k else i);
    if i > 0 && k != i - 1 && kids[p][k] == kids[p][i - 1] { InOneListOnce(rel, kids, p, k, p, i - 1); }
    if i + 1 < |kids[p]| && k != i + 1 && kids[p][k] == kids[p][i + 1] { InOneListOnce(rel, kids, p, k, p, i + 1); }
    hide Shape;
  }

  lemma RemovedLink(rel: Links, after: Links, kids: Children, next: Children, p: Entity, i: nat, j: nat)
    requires Shape(rel, kids) && p in kids && i < |kids[p]|
    requires next == kids[p := kids[p][..i] + kids[p][i + 1..]]
    requires kids[p][i] in rel && Removed(rel, after, p, kids[p][i]) && j < |next[p]|
    ensures LinkAgrees(after, next, p, j)
  {
    hide Shape, Removed;
    var ks, k: int := kids[p], Before(i, j);
    assert next[p][j] == ks[k];
    Neighbours(rel, kids, p, i, k);
    RemovedAt(rel, after, p, ks[i], ks[k]);
    assert Nth(next[p], j - 1) == if k == i + 1 then Nth(ks, k - 2) else Nth(ks, k - 1);
    assert Nth(next[p], j + 1) == if k + 1 == i then Nth(ks, i + 1) else Nth(ks, k + 1);
  }

  lemma RemovedAt(rel: Links, after: Links, p: Entity, x: Entity, y: Entity)
    requires x in rel && y in rel && Removed(rel, after, p, x)
    ensures y in after && after[y] == AfterRemove(rel, p, x, y)
  {
  }

  lemma RemovedElsewhere(rel: Links, after: Links, kids: Children, next: Children, p: Entity, i: nat, q: Entity, j: nat)
    requires Shape(rel, kids) && p in kids && i < |kids[p]|
    requires next == kids[p := kids[p][..i] + kids[p][i + 1..]]
    requires kids[p][i] in rel && Removed(rel, after, p, kids[p][i]) && q in kids && q != p && j < |kids[q]|
    ensures LinkAgrees(after, next, q, j)
  {
    var x, y := kids[p][i], kids[q][j];
    assert LinkAgrees(rel, kids, p, i) && LinkAgrees(rel, kids, q, j);
    if i > 0 { assert LinkAgrees(rel, kids, p, i - 1); }
    if i + 1 < |kids[p]| { assert LinkAgrees(rel, kids, p, i + 1); }
    RemovedAt(rel, after, p, x, y);
  }

  lemma RemovedHead(rel: Links, after: Links, kids: Children, next: Children, p: Entity, i: nat, q: Entity)
    requires Shape(rel, kids) && p in kids && i < |kids[p]|
    requires next == kids[p := kids[p][..i] + kids[p][i + 1..]]
    requires kids[p][i] in rel && Removed(rel, after, p, kids[p][i]) && q in rel
    ensures HeadAgrees(after, next, q)
  {
    assert HeadAgrees(rel, kids, q);
    assert LinkAgrees(rel, kids, p, i);
    RemovedAt(rel, after, p, kids[p][i], q);
  }

  lemma RemovedPlaced(rel: Links, after: Links, kids: Children, next: Children, p: Entity, i: nat, y: Entity)
    requires Shape(rel, kids) && p in kids && i < |kids[p]|
    requires next == kids[p := kids[p][..i] + kids[p][i + 1..]]
    requires kids[p][i] in rel && Removed(rel, after, p, kids[p][i]) && y in rel
    ensures Placed(after, next, y)
  {
    hide Shape, Removed;
    var ks, x := kids[p], kids[p][i];
    LinkOf(rel, kids, p, i);
    PlacedOf(rel, kids, y);
    RemovedAt(rel, after, p, x, y);
    if i > 0 { LinkOf(rel, kids, p, i - 1); }
    if i + 1 < |ks| { LinkOf(rel, kids, p, i + 1); }
    if y != x && rel[y].parent == Some(p) {
      var j :| 0 <= j < |ks| && ks[j] == y;
      assert next[p][if j < i then j else j - 1] == y;
    }
  }

  lemma RemoveKeepsShape(rel: Links, after: Links, kids: Children, p: Entity, x: Entity)
    requires Shape(rel, kids) && x in rel && rel[x].parent == Some(p) && Removed(rel, after, p, x)
    ensures p in kids && Shape(after, Detached(kids, p, x))
  {
    assert Placed(rel, kids, x);
    var i :| 0 <= i < |kids[p]| && kids[p][i] == x;
    var next := Detached(kids, p, x);
    forall m | 0 <= m < i ensures kids[p][m] != x { InOneListOnceAt(rel, kids, p, m, i); }
    MinusAt(kids[p], i);
    forall q | q in after ensures HeadAgrees(after, next, q) {
      RemovedHead(rel, after, kids, next, p, i, q);
    }
    forall q, j | q in next && 0 <= j < |next[q]| ensures LinkAgrees(after, next, q, j) {
      if q == p {
        RemovedLink(rel, after, kids, next, p, i, j);
      } else {
        RemovedElsewhere(rel, after, kids, next, p, i, q, j);
      }
    }
    forall y | y in after ensures Placed(after, next, y) {
      RemovedPlaced(rel, after, kids, next, p, i, y);
    }
  }

  lemma InOneListOnceAt(rel: Links, kids: Children, p: Entity, m: nat, i: nat)
    requires Shape(rel, kids) && p in kids && m < i < |kids[p]|
    ensures kids[p][m] != kids[p][i]
  {
    NoRepeats(rel, kids, p, m, i);
  }

  // ---------------------------------------------------------------- appending a child

  /** The component of `y` after `x` has been appended to the children of `p`, whose last one was `last`. */
  function AfterAppend(rel: Links, p: Entity, x: Entity, last: Option<Entity>, y: Entity): Rel
    requires y in rel
  {
    Rel(if y == p then rel[y].children + 1 else rel[y].children,
        if y == p && last == None then Some(x) else rel[y].first,
        if y == x && last.Some? then last else rel[y].prev,
        if y == x then None else if last == Some(y) then Some(x) else rel[y].next,
        if y == x then Some(p) else rel[y].parent)
  }

  predicate Appended(rel: Links, after: Links, p: Entity, x: Entity, last: Option<Entity>) {
    after.Keys == rel.Keys && forall y :: y in rel ==> after[y] == AfterAppend(rel, p, x, last, y)
  }

  lemma AppendedAt(rel: Links, after: Links, p: Entity, x: Entity, last: Option<Entity>, y: Entity)
    requires y in rel && Appended(rel, after, p, x, last)
    ensures y in after && after[y] == AfterAppend(rel, p, x, last, y)
  {
  }

  /** A root is in no child sequence. */
  lemma RootIsUnlisted(rel: Links, kids: Children, x: Entity, q: Entity, j: nat)
    requires Shape(rel, kids) && x in rel && rel[x].parent == None && q in kids && j < |kids[q]|
    ensures kids[q][j] != x
  {
    LinkOf(rel, kids, q, j);
  }

  lemma AppendedLink(rel: Links, after: Links, kids: Children, p: Entity, x: Entity, q: Entity, j: nat)
    requires Shape(rel, kids) && x in rel && p in rel && rel[x].parent == None
    requires p in kids && Appended(rel, after, p, x, Nth(kids[p], |kids[p]| - 1))
    requires q in kids && j < |kids[q]|
    ensures LinkAgrees(after, Attached(kids, p, x), q, j)
  {
    hide Shape, Appended;
    var ks := kids[p];
    LinkOf(rel, kids, q, j);
    RootIsUnlisted(rel, kids, x, q, j);
    AppendedAt(rel, after, p, x, Nth(ks, |ks| - 1), kids[q][j]);
    if ks != [] && ks[|ks| - 1] == kids[q][j] {
      InOneListOnce(rel, kids, p, |ks| - 1, q, j);
    }
  }

  lemma AppendedLast(rel: Links, after: Links, kids: Children, p: Entity, x: Entity)
    requires Shape(rel, kids) && x in rel && p in rel && rel[x].parent == None
    requires p in kids && Appended(rel, after, p, x, Nth(kids[p], |kids[p]| - 1))
    ensures LinkAgrees(after, Attached(kids, p, x), p, |kids[p]|)
  {
    var ks := kids[p];
    assert Placed(rel, kids, x);
    AppendedAt(rel, after, p, x, Nth(ks, |ks| - 1), x);
    hide Shape, Appended;
  }

  lemma AppendKeepsShape(rel: Links, after: Links, kids: Children, p: Entity, x: Entity)
    requires Shape(rel, kids) && x in rel && p in rel && rel[x].parent == None
    requires p in kids && Appended(rel, after, p, x, Nth(kids[p], |kids[p]| - 1))
    ensures Shape(after, Attached(kids, p, x))
  {
    var next := Attached(kids, p, x);
    forall q | q in after ensures HeadAgrees(after, next, q) {
      assert HeadAgrees(rel, kids, q);
      AppendedAt(rel, after, p, x, Nth(kids[p], |kids[p]| - 1), q);
    }
    forall q, j | q in next && 0 <= j < |next[q]| ensures LinkAgrees(after, next, q, j) {
      if q == p && j == |kids[p]| {
        AppendedLast(rel, after, kids, p, x);
      } else {
        AppendedLink(rel, after, kids, p, x, q, j);
      }
    }
    forall y | y in after ensures Placed(after, next, y) {
      AppendedPlaced(rel, after, kids, p, x, y);
    }
  }

  lemma AppendedPlaced(rel: Links, after: Links, kids: Children, p: Entity, x: Entity, y: Entity)
    requires Shape(rel, kids) && x in rel && p in rel && rel[x].parent == None && y in rel
    requires p in kids && Appended(rel, after, p, x, Nth(kids[p], |kids[p]| - 1))
    ensures y in after && Placed(after, Attached(kids, p, x), y)
  {
    hide Shape, Appended;
    var ks := kids[p];
    AppendedAt(rel, after, p, x, Nth(ks, |ks| - 1), y);
    PlacedOf(rel, kids, y);
    if y == x {
      assert (ks + [x])[|ks|] == x;
      hide Nth;
    } else {
      if ks != [] {
        LinkOf(rel, kids, p, |ks| - 1);
      }
      PlacedStays(rel, after, kids, Attached(kids, p, x), y);
    }
  }

  lemma PlacedStays(rel: Links, after: Links, kids: Children, next: Children, y: Entity)
    requires y in rel && Placed(rel, kids, y) && y in after && after[y].parent == rel[y].parent
    requires rel[y].parent == None ==> after[y].prev == None && after[y].next == None
    requires forall q :: q in kids ==> q in next && kids[q] <= next[q]
    ensures Placed(after, next, y)
  {
    if rel[y].parent.Some? {
      var q := rel[y].parent.value;
      assert kids[q] <= next[q];
      var j :| 0 <= j < |kids[q]| && kids[q][j] == y;
      assert next[q][j] == y;
    }
  }
}

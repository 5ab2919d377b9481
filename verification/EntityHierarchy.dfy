/** The registry's relationship components, and the operations that edit and read them. */
module EntityHierarchy {
  import opened Wrappers
  import opened EntityForest
  import opened EntityOrder

  function ParentOf(rel: Links, x: Entity): Option<Entity> {
    if x in rel then rel[x].parent else None
  }

  /** The child sequences once `x` has been given the parent `parent`. */
  function Moved(kids: Children, x: Entity, from: Option<Entity>, parent: Option<Entity>): Children {
    if parent.Some? && from == parent then kids
    else
      var known := WithComponent(kids, x);
      var apart := if from.Some? && from.value in known then Detached(known, from.value, x) else known;
      if parent.None? then apart
      else Attached(WithComponent(apart, parent.value), parent.value, x)
  }

  /** What RemoveChild relies on. */
  lemma ChildLinks(rel: Links, kids: Children, p: Entity, x: Entity)
    requires Shape(rel, kids) && x in rel && rel[x].parent == Some(p)
    ensures p in rel && rel[p].children > 0
    ensures rel[x].prev.Some? ==> rel[x].prev.value in rel && rel[x].prev.value != x
    ensures rel[x].next.Some? ==> rel[x].next.value in rel && rel[x].next.value != x
    ensures rel[x].prev.Some? ==> rel[x].next != rel[x].prev
  {
    assert Placed(rel, kids, x);
    var i :| 0 <= i < |kids[p]| && kids[p][i] == x;
    assert HeadAgrees(rel, kids, p);
    LinkOf(rel, kids, p, i);
    if i > 0 { Neighbours(rel, kids, p, i, i - 1); }
    if i + 1 < |kids[p]| { Neighbours(rel, kids, p, i, i + 1); }
  }

  lemma ParentsKnown(rel: Links, kids: Children)
    requires Shape(rel, kids)
    ensures forall y :: y in rel && rel[y].parent.Some? ==> rel[y].parent.value in rel
  {
    forall y | y in rel && rel[y].parent.Some? ensures rel[y].parent.value in rel {
      assert Placed(rel, kids, y);
    }
  }

  /** The neighbours, or the parent, of `x` skip over it. */
  ghost predicate Skipped(rel: Links, after: Links, p: Entity, x: Entity)
    requires x in rel && p in rel
  {
    var prev, next := rel[x].prev, rel[x].next;
    var half := if prev.Some? then if prev.value in rel then rel[prev.value := rel[prev.value].(next := next)] else rel
                else rel[p := rel[p].(first := next)];
    after == if next.Some? && next.value in half then half[next.value := half[next.value].(prev := prev)] else half
  }

  lemma SkippedAt(rel: Links, after: Links, p: Entity, x: Entity, y: Entity)
    requires x in rel && p in rel && y in rel && Skipped(rel, after, p, x)
    requires rel[x].prev.Some? ==> rel[x].prev.value in rel && rel[x].prev.value != x
    requires rel[x].next.Some? ==> rel[x].next.value in rel && rel[x].next.value != x
    ensures after.Keys == rel.Keys
    ensures after[y] == Rel(
      rel[y].children,
      if y == p && rel[x].prev == None then rel[x].next else rel[y].first,
      if rel[x].next == Some(y) then rel[x].prev else rel[y].prev,
      if rel[x].prev == Some(y) then rel[x].next else rel[y].next,
      rel[y].parent)
  {
  }

  lemma UnlinkedIsRemoved(rel: Links, unlinked: Links, after: Links, p: Entity, x: Entity)
    requires x in rel && p in rel && rel[p].children > 0 && Skipped(rel, unlinked, p, x)
    requires rel[x].prev.Some? ==> rel[x].prev.value in rel && rel[x].prev.value != x
    requires rel[x].next.Some? ==> rel[x].next.value in rel && rel[x].next.value != x
    requires x in unlinked && p in unlinked
    requires var cleared := unlinked[x := unlinked[x].(prev := None, next := None, parent := None)];
             cleared[p].children > 0 && after == cleared[p := cleared[p].(children := cleared[p].children - 1)]
    ensures Removed(rel, after, p, x)
  {
    SkippedAt(rel, unlinked, p, x, x);
    forall y | y in rel ensures y in after && after[y] == AfterRemove(rel, p, x, y) {
      SkippedAt(rel, unlinked, p, x, y);
      hide Skipped;
    }
  }

  lemma SkippedKeeps(rel: Links, skipped: Links, kids: Children, p: Entity, x: Entity)
    requires Shape(rel, kids) && x in rel && p in rel && rel[x].parent == Some(p) && Skipped(rel, skipped, p, x)
    ensures x in skipped && p in skipped && skipped[p].children > 0
  {
    ChildLinks(rel, kids, p, x);
    SkippedAt(rel, skipped, p, x, x);
    SkippedAt(rel, skipped, p, x, p);
  }

  lemma RemovalDone(rel: Links, skipped: Links, after: Links, kids: Children, p: Entity, x: Entity)
    requires Shape(rel, kids) && x in rel && p in rel && rel[x].parent == Some(p) && Skipped(rel, skipped, p, x)
    requires x in skipped && p in skipped && skipped[p].children > 0
    requires var cleared := skipped[x := skipped[x].(prev := None, next := None, parent := None)];
             cleared[p].children > 0 && after == cleared[p := cleared[p].(children := cleared[p].children - 1)]
    ensures p in kids && Shape(after, Detached(kids, p, x))
    ensures Removed(rel, after, p, x) && x in after && after[x].parent == None
  {
    ChildLinks(rel, kids, p, x);
    UnlinkedIsRemoved(rel, skipped, after, p, x);
    RemovedAt(rel, after, p, x, x);
    RemoveKeepsShape(rel, after, kids, p, x);
  }

  lemma KnownKeepsShape(rel: Links, kids: Children, x: Entity)
    requires Shape(rel, kids)
    ensures Shape(if x in rel then rel else rel[x := ALONE], WithComponent(kids, x))
  {
    if x !in rel {
      AddedKeepsShape(rel, kids, x);
    }
  }

  /** Adding a component changes nobody's parent. */
  lemma KnownIsReparented(rel: Links, known: Links, x: Entity)
    requires x in known && known == if x in rel then rel else rel[x := ALONE]
    ensures Reparented(rel, known, x, ParentOf(rel, x)) && known[x].parent == ParentOf(rel, x)
  {
  }

  lemma RemovedIsReparented(rel: Links, after: Links, p: Entity, x: Entity)
    requires x in rel && Removed(rel, after, p, x)
    ensures Reparented(rel, after, x, None)
  {
  }

  lemma ReparentedTwice(rel: Links, middle: Links, after: Links, x: Entity, first: Option<Entity>,
          parent: Option<Entity>)
    requires Reparented(rel, middle, x, first) && Reparented(middle, after, x, parent)
    ensures Reparented(rel, after, x, parent)
  {
  }

  lemma ReparentedToItself(rel: Links, x: Entity)
    requires x in rel
    ensures Reparented(rel, rel, x, rel[x].parent)
  {
  }

  lemma Outcome(rel: Links, after: Links, kids: Children, x: Entity, parent: Option<Entity>)
    requires Shape(after, kids) && Reparented(rel, after, x, parent)
    ensures Acyclic(rel) ==> (Acyclic(after) <==> (parent.Some? ==> !OnChain(rel, parent.value, x)))
  {
    ParentsKnown(after, kids);
    if Acyclic(rel) {
      AcyclicUnlessBelow(rel, after, x, parent);
    }
  }

  lemma RootHasNoSiblings(rel: Links, kids: Children, x: Entity)
    requires Shape(rel, kids) && x in rel && rel[x].parent == None
    ensures rel == rel[x := rel[x].(prev := None, next := None, parent := None)]
  {
    assert Placed(rel, kids, x);
  }

  predicate LastIsApart(rel: Links, x: Entity, last: Option<Entity>) {
    last.Some? ==> last.value in rel && last.value != x
  }

  /** `x` names `p` as its parent, and is linked to the last child of `p`, or as the first one. */
  function Linked(base: Links, p: Entity, x: Entity, last: Option<Entity>): Links
    requires x in base && p in base && LastIsApart(base, x, last)
  {
    var named := base[x := base[x].(parent := Some(p))];
    match last
    case None => named[p := named[p].(first := Some(x))]
    case Some(l) =>
      var linked := named[l := named[l].(next := Some(x))];
      linked[x := linked[x].(prev := last)]
  }

  lemma LinkedAt(base: Links, p: Entity, x: Entity, last: Option<Entity>, y: Entity)
    requires x in base && p in base && LastIsApart(base, x, last) && y in base
    ensures Linked(base, p, x, last).Keys == base.Keys
    ensures Linked(base, p, x, last)[y] == Rel(
      base[y].children,
      if y == p && last == None then Some(x) else base[y].first,
      if y == x && last.Some? then last else base[y].prev,
      if last == Some(y) then Some(x) else base[y].next,
      if y == x then Some(p) else base[y].parent)
  {
  }

  ghost predicate Counted(linked: Links, after: Links, p: Entity, x: Entity) {
    && x in linked && p in linked
    && var more := linked[p := linked[p].(children := linked[p].children + 1)];
       after == more[x := more[x].(next := None)]
  }

  lemma CountedAt(linked: Links, after: Links, p: Entity, x: Entity, y: Entity)
    requires Counted(linked, after, p, x) && y in linked
    ensures after.Keys == linked.Keys
    ensures after[y] == Rel(
      if y == p then linked[y].children + 1 else linked[y].children, linked[y].first, linked[y].prev,
      if y == x then None else linked[y].next, linked[y].parent)
  {
  }

  lemma AppendDone(rel: Links, base: Links, after: Links, before: Children, kids: Children, p: Entity, x: Entity,
                   last: Option<Entity>)
    requires x in rel && base == (if p in rel then rel else rel[p := ALONE])
    requires Shape(base, kids) && x in base && p in base && base[x].parent == None
    requires p in kids && last == Nth(kids[p], |kids[p]| - 1) && LastIsApart(base, x, last)
    requires Counted(Linked(base, p, x, last), after, p, x)
    ensures Shape(after, Attached(kids, p, x)) && Reparented(rel, after, x, Some(p))
  {
    var linked := Linked(base, p, x, last);
    LinkedAt(base, p, x, last, x);
    CountedAt(linked, after, p, x, x);
    forall y | y in base ensures y in after && after[y] == AfterAppend(base, p, x, last, y) {
      LinkedAt(base, p, x, last, y);
      CountedAt(linked, after, p, x, y);
      hide Linked, Counted;
    }
    hide Linked, Counted;
    AppendKeepsShape(base, after, kids, p, x);
    ReparentedByAppend(rel, base, after, p, x, last);
  }

  lemma ReparentedByAppend(rel: Links, base: Links, after: Links, p: Entity, x: Entity, last: Option<Entity>)
    requires x in rel && base == (if p in rel then rel else rel[p := ALONE])
    requires Appended(base, after, p, x, last)
    ensures Reparented(rel, after, x, Some(p))
  {
  }

  class Registry {
    var rel: Links
    ghost var kids: Children

    ghost predicate Valid()
      reads this
    {
      Shape(rel, kids)
    }

    constructor ()
      ensures Valid() && rel == map[] && kids == map[] && Acyclic(rel)
    {
      rel, kids := map[], map[];
      new;
      assert Ranked(rel, map[]);
    }

    /** Links the neighbours of `x` to each other. */
    method SkipOver(p: Entity, x: Entity)
      requires x in rel && p in rel
      requires rel[x].prev.Some? ==> rel[x].prev.value in rel && rel[x].prev.value != x
      requires rel[x].next.Some? ==> rel[x].next.value in rel && rel[x].next.value != x
      modifies this`rel
      ensures Skipped(old(rel), rel, p, x)
    {
      if rel[x].prev != None {
        rel := rel[rel[x].prev.value := rel[rel[x].prev.value].(next := rel[x].next)];
      } else {
        rel := rel[p := rel[p].(first := rel[x].next)];
      }
      if rel[x].next != None {
        rel := rel[rel[x].next.value := rel[rel[x].next.value].(prev := rel[x].prev)];
      }
    }

    /** Takes `x` out of the children of `p`; refuses when `x` is not a child of `p`. */
    method RemoveChild(p: Entity, x: Entity) returns (removed: bool)
      requires Valid() && x in rel
      modifies this
      ensures Valid()
      ensures removed <==> old(rel)[x].parent == Some(p)
      ensures !removed ==> rel == old(rel) && kids == old(kids)
      ensures removed ==> p in old(kids) && kids == Detached(old(kids), p, x)
      ensures removed ==> Removed(old(rel), rel, p, x) && rel[x].parent == None
    {
      if rel[x].parent == Some(p) {
        ChildLinks(rel, kids, p, x);
      }
      hide Shape;
      if p !in rel {
        return false;
      }
      if rel[x].parent != Some(p) {
        return false;
      }
      SkipOver(p, x);
      ghost var skipped := rel;
      SkippedKeeps(old(rel), rel, kids, p, x);
      rel := rel[x := rel[x].(prev := None, next := None, parent := None)];
      rel := rel[p := rel[p].(children := rel[p].children - 1)];
      RemovalDone(old(rel), skipped, rel, kids, p, x);
      hide *;
      kids := Detached(kids, p, x);
      return true;
    }

    /** A relationship component for `x`, if it has none. */
    method GetOrAdd(x: Entity)
      requires Valid()
      modifies this
      ensures Valid() && x in rel && rel == if x in old(rel) then old(rel) else old(rel)[x := ALONE]
      ensures kids == WithComponent(old(kids), x)
    {
      if x !in rel {
        AddedKeepsShape(rel, kids, x);
        rel, kids := rel[x := ALONE], kids[x := []];
      }
    }

    /** The walk along the children of `p`, while `x` names `p` as its parent but is not yet linked. */
    method LastChild(p: Entity, x: Entity, ghost base: Links) returns (last: Entity)
      requires Shape(base, kids) && x in base && p in base && base[x].parent == None && base[p].children > 0
      requires rel == base[x := base[x].(parent := Some(p))]
      ensures p in kids && Some(last) == Nth(kids[p], |kids[p]| - 1)
    {
      hide Shape;
      HeadOf(base, kids, p);
      last := rel[p].first.value;
      var i := 1;
      while i < rel[p].children
        invariant 1 <= i <= |kids[p]| && last == kids[p][i - 1]
      {
        SiblingLink(base, kids, p, i - 1);
        last := rel[last].next.value;
        i := i + 1;
      }
    }

    /** Links `x` behind the last child of `p`, or makes it the first. */
    method LinkAsLast(p: Entity, x: Entity, ghost base: Links) returns (ghost last: Option<Entity>)
      requires Shape(base, kids) && x in base && p in base && base[x].parent == None
      requires rel == base[x := base[x].(parent := Some(p))]
      modifies this`rel
      ensures p in kids && last == Nth(kids[p], |kids[p]| - 1)
      ensures LastIsApart(base, x, last) && rel == Linked(base, p, x, last)
    {
      hide Shape;
      HeadOf(base, kids, p);
      if rel[p].children == 0 {
        rel := rel[p := rel[p].(first := Some(x))];
        last := None;
      } else {
        var lastChild := LastChild(p, x, base);
        SiblingLink(base, kids, p, |kids[p]| - 1);
        last := Some(lastChild);
        rel := rel[lastChild := rel[lastChild].(next := Some(x))];
        rel := rel[x := rel[x].(prev := Some(lastChild))];
      }
    }

    /** Names `p` as the parent of `x`, with a component for `p`. */
    method NameParent(p: Entity, x: Entity) returns (ghost base: Links)
      requires Valid() && x in rel
      modifies this
      ensures base == if p in old(rel) then old(rel) else old(rel)[p := ALONE]
      ensures kids == WithComponent(old(kids), p) && Shape(base, kids)
      ensures rel == base[x := base[x].(parent := Some(p))]
    {
      base := if p in rel then rel else rel[p := ALONE];
      KnownKeepsShape(rel, kids, p);
      hide *;
      kids := WithComponent(kids, p);
      rel := rel[x := rel[x].(parent := Some(p))];
      if p !in rel {
        rel := rel[p := ALONE];
      }
    }

    /** The branch of set_parent that makes `x` the last child of `p`. */
    method AppendChild(p: Entity, x: Entity)
      requires Valid() && x in rel && rel[x].parent == None
      modifies this
      ensures Valid() && kids == Attached(WithComponent(old(kids), p), p, x)
      ensures Reparented(old(rel), rel, x, Some(p))
    {
      hide Shape, WithComponent, Linked, Attached, Reparented;
      ghost var base := NameParent(p, x);
      ghost var last := LinkAsLast(p, x, base);
      LinkedAt(base, p, x, last, x);
      rel := rel[p := rel[p].(children := rel[p].children + 1)];
      rel := rel[x := rel[x].(next := None)];
      AppendDone(old(rel), base, rel, old(kids), kids, p, x, last);
      kids := Attached(kids, p, x);
    }

    /**
     * Makes `parent` the parent of `x`: `x` leaves its old parent's children, and becomes the last
     * of the new parent's; every other child sequence, and its order, stays as it was.
     */
    method SetParent(x: Entity, parent: Option<Entity>)
      requires Valid()
      modifies this
      ensures Valid()
      ensures kids == Moved(old(kids), x, ParentOf(old(rel), x), parent)
      ensures Reparented(old(rel), rel, x, parent)
      ensures Acyclic(old(rel)) ==>
                (Acyclic(rel) <==> (parent.Some? ==> !OnChain(old(rel), parent.value, x)))
    {
      ghost var from := ParentOf(rel, x);
      GetOrAdd(x);
      ghost var known := rel;
      KnownIsReparented(old(rel), rel, x);
      hide Shape, Reparented, Acyclic, OnChain, Removed, Detached, Attached;
      // Two null parents may compare equal or not, as one of them may name no registry:
      // either way nothing changes.
      if parent.Some? && rel[x].parent == parent {
        Outcome(old(rel), rel, kids, x, parent);
        return;
      }
      if rel[x].parent.Some? {
        var p := rel[x].parent.value;
        var _ := RemoveChild(p, x);
        RemovedIsReparented(known, rel, p, x);
      } else {
        ReparentedToItself(rel, x);
      }
      ReparentedTwice(old(rel), known, rel, x, from, None);
      ghost var apart := rel;
      if parent.Some? {
        AppendChild(parent.value, x);
        ReparentedTwice(old(rel), apart, rel, x, None, parent);
      } else {
        RootHasNoSiblings(rel, kids, x);
        rel := rel[x := rel[x].(prev := None, next := None, parent := None)];
      }
      Outcome(old(rel), rel, kids, x, parent);
    }
  }
}

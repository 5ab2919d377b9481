/** The depth-first iterator with its explicit stack, and what is computed by walking the hierarchy. */
module EntityTraversal {
  import opened Wrappers
  import opened EntityForest
  import opened EntityOrder
  import opened EntityHierarchy

  /** A stack from its top, which is its last element, downwards. */
  function FromTop(stack: seq<Entity>): seq<Entity> {
    if stack == [] then [] else [stack[|stack| - 1]] + FromTop(stack[..|stack| - 1])
  }

  lemma FromTopOfPush(stack: seq<Entity>, x: Entity)
    ensures FromTop(stack + [x]) == [x] + FromTop(stack)
  {
    assert (stack + [x])[..|stack|] == stack;
  }

  /** Pushing the children from the last to the first leaves the first on top. */
  lemma FromTopOfPushes(stack: seq<Entity>, temp: seq<Entity>, it: nat, below: seq<Entity>)
    requires it < |temp| && FromTop(stack) == temp[it + 1..] + below
    ensures FromTop(stack + [temp[it]]) == temp[it..] + below
  {
    FromTopOfPush(stack, temp[it]);
    hide FromTop;
    assert temp[it..] == [temp[it]] + temp[it + 1..];
  }

  ghost predicate AllKnown(rel: Links, stack: seq<Entity>) {
    forall x :: x in stack ==> x in rel
  }

  lemma ChildrenKnown(rel: Links, kids: Children, p: Entity)
    requires Shape(rel, kids) && p in kids
    ensures AllKnown(rel, kids[p])
  {
    forall x | x in kids[p] ensures x in rel {
      var i :| 0 <= i < |kids[p]| && kids[p][i] == x;
      LinkOf(rel, kids, p, i);
    }
  }

  /** The top of the stack comes first, then its descendants, then the rest of the stack. */
  lemma TopThenItsTree(kids: Children, h: Heights, x: Entity, rest: seq<Entity>)
    requires Falls(kids, h)
    ensures Trees(kids, h, [x] + rest) == [x] + Trees(kids, h, ChildrenOf(kids, x) + rest)
  {
    TreesOfBoth(kids, h, ChildrenOf(kids, x), rest);
    assert ([x] + rest)[1..] == rest;
  }

  class RecursiveChildIterator {
    const registry: Registry
    var current: Option<Entity>
    var stack: seq<Entity>

    ghost predicate Valid()
      reads this, registry
    {
      registry.Valid() && AllKnown(registry.rel, stack) && (current == None ==> stack == [])
    }

    /** What the iterator has still to visit, the current entity included. */
    ghost function Ahead(h: Heights): seq<Entity>
      requires Falls(registry.kids, h)
      reads this, registry
    {
      match current
      case None => []
      case Some(x) => [x] + Trees(registry.kids, h, FromTop(stack))
    }

    /** Starts at the first descendant of `start`. */
    constructor (registry: Registry, start: Entity, ghost h: Heights)
      requires registry.Valid() && start in registry.rel && Falls(registry.kids, h)
      ensures Valid() && this.registry == registry && Ahead(h) == Descendants(registry.kids, h, start)
    {
      this.registry, current, stack := registry, Some(start), [];
      new;
      PushChildren(start);
      assert FromTop([]) == [];
      assert ChildrenOf(registry.kids, start) + [] == registry.kids[start];
      AdvanceToNext(h);
    }

    /** The children of `x` in order, by following the links. */
    method CollectChildren(x: Entity) returns (temp: seq<Entity>)
      requires registry.Valid() && x in registry.rel
      ensures x in registry.kids && temp == registry.kids[x] && AllKnown(registry.rel, temp)
    {
      HeadOf(registry.rel, registry.kids, x);
      ChildrenKnown(registry.rel, registry.kids, x);
      ghost var ks := registry.kids[x];
      temp := [];
      var child := registry.rel[x].first;
      while child.Some?
        invariant |temp| <= |ks| && temp == ks[..|temp|] && child == Nth(ks, |temp|)
        decreases |ks| - |temp|
      {
        SiblingLink(registry.rel, registry.kids, x, |temp|);
        temp := temp + [child.value];
        child := registry.rel[child.value].next;
      }
    }

    /** Puts the children of `x` on the stack, the first child on top. */
    method PushChildren(x: Entity)
      requires registry.Valid() && AllKnown(registry.rel, stack) && x in registry.rel
      modifies this`stack
      ensures AllKnown(registry.rel, stack) && x in registry.kids
      ensures FromTop(stack) == registry.kids[x] + FromTop(old(stack))
    {
      HeadOf(registry.rel, registry.kids, x);
      hide Shape;
      if registry.rel[x].children > 0 {
        var temp := CollectChildren(x);
        var it := |temp|;
        assert temp[it..] + FromTop(stack) == FromTop(stack);
        hide FromTop;
        while it > 0
          invariant 0 <= it <= |temp| && AllKnown(registry.rel, stack)
          invariant FromTop(stack) == temp[it..] + FromTop(old(stack))
        {
          it := it - 1;
          FromTopOfPushes(stack, temp, it, old(FromTop(stack)));
          stack := stack + [temp[it]];
        }
      }
    }

    method AdvanceToNext(ghost h: Heights)
      requires registry.Valid() && AllKnown(registry.rel, stack) && Falls(registry.kids, h)
      modifies this`current, this`stack
      ensures Valid() && Ahead(h) == Trees(registry.kids, h, old(FromTop(stack)))
    {
      if stack == [] {
        current := None;
        return;
      }
      var top := stack[|stack| - 1];
      current := Some(top);
      stack := stack[..|stack| - 1];
      TopThenItsTree(registry.kids, h, top, FromTop(stack));
      PushChildren(top);
    }

    /** operator++ */
    method Increment(ghost h: Heights)
      requires Valid() && current.Some? && Falls(registry.kids, h)
      modifies this`current, this`stack
      ensures Valid() && Ahead(h) == old(Ahead(h))[1..]
    {
      AdvanceToNext(h);
    }
  }

  /** How many entities are below `x`: all of its subtree but itself. */
  method DescendantsCount(registry: Registry, x: Entity, ghost h: Heights) returns (count: nat)
    requires registry.Valid() && x in registry.rel && Ranked(registry.rel, h)
    ensures count + 1 == |set y | y in registry.rel && OnChain(registry.rel, y, x)|
  {
    RankedFalls(registry.rel, registry.kids, h);
    DescendantsCounted(registry.rel, registry.kids, h, x);
    var it := new RecursiveChildIterator(registry, x, h);
    count := 0;
    while it.current.Some?
      invariant it.Valid() && it.registry == registry
      invariant count + |it.Ahead(h)| == |Descendants(registry.kids, h, x)|
      decreases |it.Ahead(h)|
    {
      it.Increment(h);
      count := count + 1;
    }
  }

  lemma {:induction false} InOneTree(kids: Children, h: Heights, ks: seq<Entity>, y: Entity) returns (i: nat)
    requires Falls(kids, h) && y in Trees(kids, h, ks)
    ensures i < |ks| && (y == ks[i] || y in Descendants(kids, h, ks[i]))
    decreases |ks|
  {
    i := 0;
    if y != ks[0] && y !in Descendants(kids, h, ks[0]) {
      i := InOneTree(kids, h, ks[1..], y);
      i := i + 1;
    }
  }

  lemma ChildrenLower(kids: Children, h: Heights, x: Entity)
    requires Falls(kids, h)
    ensures forall i :: 0 <= i < |ChildrenOf(kids, x)| ==> Height(h, ChildrenOf(kids, x)[i]) < Height(h, x)
  {
  }

  /** True exactly when `x` is further up the parent chain of `other`. */
  method IsAncestorOf(registry: Registry, x: Entity, other: Entity, ghost h: Heights) returns (found: bool)
    requires registry.Valid() && Ranked(registry.rel, h)
    ensures found <==> ProperAncestor(registry.rel, x, other)
    decreases Height(h, x)
  {
    ghost var rel, kids := registry.rel, registry.kids;
    RankedFalls(rel, kids, h);
    DescendantsAreBelow(rel, kids, h, x, other);
    ChildrenLower(kids, h, x);
    hide Shape, Ranked, ProperAncestor, Falls;
    if x !in registry.rel {
      return false;
    }
    HeadOf(rel, kids, x);
    if registry.rel[x].children == 0 {
      return false;
    }
    var child := registry.rel[x].first;
    ghost var i := 0;
    while child.Some?
      invariant 0 <= i <= |kids[x]| && child == Nth(kids[x], i)
      invariant forall j :: 0 <= j < i ==> kids[x][j] != other && other !in Descendants(kids, h, kids[x][j])
      decreases |kids[x]| - i
    {
      TreeIsIncluded(kids, h, kids[x], kids[x][i]);
      if child.value == other {
        return true;
      }
      var below := IsAncestorOf(registry, child.value, other, h);
      DescendantsAreBelow(rel, kids, h, child.value, other);
      if below {
        return true;
      }
      SiblingLink(rel, kids, x, i);
      child := registry.rel[child.value].next;
      i := i + 1;
    }
    if other in Descendants(kids, h, x) {
      var j := InOneTree(kids, h, kids[x], other);
    }
    return false;
  }
}

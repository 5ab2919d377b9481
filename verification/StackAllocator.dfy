/** The bump allocator, and the ring of them that is advanced once a frame. */
module StackAllocators {
  import opened Wrappers
  import opened Basics

  datatype Failure = BadAlloc | NotAllocated

  datatype Block = Block(start: nat, size: nat)

  /** The blocks, none empty, fill [0, top) one after the other. */
  predicate Tiled(blocks: seq<Block>, top: nat)
    decreases |blocks|
  {
    if blocks == [] then top == 0
    else
      var last := blocks[|blocks| - 1];
      last.size > 0 && last.start + last.size == top && Tiled(blocks[..|blocks| - 1], last.start)
  }

  /** Where the k-th block starts, or the top behind the last one. */
  function StartOf(blocks: seq<Block>, top: nat, k: nat): nat {
    if k < |blocks| then blocks[k].start else top
  }

  lemma {:induction false} PrefixTiled(blocks: seq<Block>, top: nat, k: nat)
    requires Tiled(blocks, top) && k <= |blocks|
    ensures Tiled(blocks[..k], StartOf(blocks, top, k)) && StartOf(blocks, top, k) <= top
    ensures k < |blocks| ==> blocks[k].size > 0 && blocks[k].start + blocks[k].size <= top
    decreases |blocks|
  {
    if k == |blocks| {
      assert blocks[..k] == blocks;
    } else {
      var front := blocks[..|blocks| - 1];
      PrefixTiled(front, blocks[|blocks| - 1].start, k);
      assert front[..k] == blocks[..k];
    }
  }

  /** No two live blocks overlap. */
  lemma BlocksApart(blocks: seq<Block>, top: nat, i: nat, j: nat)
    requires Tiled(blocks, top) && i < j < |blocks|
    ensures blocks[i].start + blocks[i].size <= blocks[j].start
  {
    PrefixTiled(blocks, top, j);
    PrefixTiled(blocks[..j], blocks[j].start, i);
  }

  /** Taking a block away keeps the tiling exactly when it is the last one. */
  lemma OnlyTheLastCanGo(blocks: seq<Block>, top: nat, k: nat)
    requires Tiled(blocks, top) && k < |blocks|
    ensures blocks[k].size <= top
    ensures Tiled(blocks[..k] + blocks[k + 1..], top - blocks[k].size) <==> k == |blocks| - 1
  {
    PrefixTiled(blocks, top, k);
    var others := blocks[..k] + blocks[k + 1..];
    if k == |blocks| - 1 {
      assert others == blocks[..k];
    } else {
      assert others[|others| - 1] == blocks[|blocks| - 1];
    }
  }

  /** The allocator knows the size of every live block. */
  ghost predicate Known(allocations: map<nat, nat>, blocks: seq<Block>) {
    forall k :: 0 <= k < |blocks| ==> blocks[k].start in allocations && allocations[blocks[k].start] == blocks[k].size
  }

  class StackAllocator {
    var size: nat
    var top: nat
    var allocations: map<nat, nat>
    ghost var live: seq<Block>

    ghost predicate Valid()
      reads this
    {
      Tiled(live, top) && Known(allocations, live) && top <= size < WORD
    }

    constructor (size: nat)
      requires size < WORD
      ensures Valid() && live == [] && this.size == size
    {
      this.size, top, allocations, live := size, 0, map[], [];
    }

    /**
     * The addition wraps around at 2^64: then the block goes through the end of the buffer, and
     * the blocks no longer tile it.  A request of no bytes takes no room.
     */
    method Alloc(n: nat) returns (result: Result<nat, Failure>)
      requires n < WORD
      modifies this
      ensures size == old(size)
      ensures result.Err? <==> (old(top) + n) % WORD > size
      ensures result.Err? ==> top == old(top) && allocations == old(allocations) && live == old(live)
      ensures result.Ok? ==> result.value == old(top) && top == (old(top) + n) % WORD
      ensures result.Ok? ==> allocations == old(allocations)[old(top) := n]
      ensures result.Ok? ==> live == if n > 0 then old(live) + [Block(old(top), n)] else old(live)
      ensures old(Valid()) ==> (Valid() <==> result.Err? || old(top) + n < WORD)
    {
      if (top + n) % WORD > size {
        return Err(BadAlloc);
      }
      if Valid() {
        NewBlock(live, top, allocations, n);
      }
      var p := top;
      allocations := allocations[p := n];
      top := (top + n) % WORD;
      live := if n > 0 then live + [Block(p, n)] else live;
      return Ok(p);
    }

    /**
     * Lowers the top by the size of the block at `p`: right for the last live block and for a
     * block of no bytes, and for no other one.
     */
    method Free(p: nat) returns (result: Result<(), Failure>)
      modifies this
      ensures size == old(size)
      ensures result.Err? <==> p !in old(allocations)
      ensures result.Err? ==> top == old(top) && allocations == old(allocations) && live == old(live)
      ensures result.Ok? ==> top == (old(top) - old(allocations)[p]) % WORD && allocations == old(allocations) - {p}
      ensures old(Valid()) && old(live) != [] && p == old(live)[|old(live)| - 1].start ==>
                result.Ok? && Valid() && live == old(live)[..|old(live)| - 1]
      ensures old(Valid()) && p in old(allocations) && old(allocations)[p] == 0 ==> Valid() && live == old(live)
    {
      if p !in allocations {
        return Err(NotAllocated);
      }
      var blockSize := allocations[p];
      if Valid() && live != [] && p == live[|live| - 1].start {
        LastFreed(live, top, allocations, size);
        live := live[..|live| - 1];
      } else if Valid() && blockSize == 0 {
        EmptyFreed(live, top, allocations, p);
      }
      allocations := allocations - {p};
      top := (top - blockSize) % WORD;
      return Ok(());
    }

    /** Forgets the blocks from the k-th on, given the marker taken before they were allocated. */
    method FreeToMarker(m: nat, ghost k: nat)
      requires Valid() && k <= |live| && m == StartOf(live, top, k)
      modifies this
      ensures Valid() && live == old(live)[..k] && top == m
    {
      PrefixTiled(live, top, k);
      top := m;
      live := live[..k];
    }

    method Clear()
      modifies this
      ensures size == old(size) && top == 0 && allocations == map[] && live == [] && (size < WORD ==> Valid())
    {
      top, allocations, live := 0, map[], [];
    }
  }

  /** The next block extends the tiling exactly when its end does not wrap around. */
  lemma NewBlock(blocks: seq<Block>, top: nat, allocations: map<nat, nat>, n: nat)
    requires Tiled(blocks, top) && Known(allocations, blocks) && top < WORD && n < WORD
    ensures var more := if n > 0 then blocks + [Block(top, n)] else blocks;
            && Known(allocations[top := n], more)
            && (Tiled(more, (top + n) % WORD) <==> top + n < WORD)
  {
    forall k | 0 <= k < |blocks| ensures blocks[k].start != top {
      PrefixTiled(blocks, top, k);
    }
    assert (blocks + [Block(top, n)])[..|blocks|] == blocks;
  }

  /** No live block starts where a block of no bytes is on record. */
  lemma EmptyFreed(blocks: seq<Block>, top: nat, allocations: map<nat, nat>, p: nat)
    requires Tiled(blocks, top) && Known(allocations, blocks) && p in allocations && allocations[p] == 0
    ensures Known(allocations - {p}, blocks)
  {
    forall k | 0 <= k < |blocks| ensures blocks[k].start != p {
      PrefixTiled(blocks, top, k);
    }
  }

  lemma LastFreed(blocks: seq<Block>, top: nat, allocations: map<nat, nat>, size: nat)
    requires Tiled(blocks, top) && Known(allocations, blocks) && blocks != [] && top <= size < WORD
    ensures var p := blocks[|blocks| - 1].start;
            var rest := blocks[..|blocks| - 1];
            && p in allocations && allocations[p] <= top && (top - allocations[p]) % WORD == top - allocations[p]
            && Tiled(rest, top - allocations[p]) && Known(allocations - {p}, rest)
  {
    var p := blocks[|blocks| - 1].start;
    forall k | 0 <= k < |blocks| - 1 ensures blocks[k].start != p {
      BlocksApart(blocks, top, k, |blocks| - 1);
      PrefixTiled(blocks, top, k);
    }
  }

  /** A call on the ring of allocators. */
  datatype Use = Swap | Take(size: nat) | Give(pointer: nat)

  function Swaps(uses: seq<Use>): nat {
    if uses == [] then 0
    else Swaps(uses[..|uses| - 1]) + if uses[|uses| - 1].Swap? then 1 else 0
  }

  /** What an allocator records. */
  datatype Record = Record(top: nat, allocations: map<nat, nat>, live: seq<Block>)

  /** Indices go round the ring of `n` allocators. */
  function Round(i: nat, n: nat): (r: nat)
    requires n > 0
    ensures r < n
  {
    i % n
  }

  lemma RoundAtStart(start: nat, n: nat)
    requires start < n
    ensures Round(start, n) == start
  {
  }

  class BufferedAllocator {
    const allocators: seq<StackAllocator>
    var stackIndex: nat

    ghost predicate Valid()
      reads this
    {
      && stackIndex < |allocators|
      && forall i, j :: 0 <= i < j < |allocators| ==> allocators[i] != allocators[j]
    }

    constructor (allocators: seq<StackAllocator>)
      requires allocators != [] && forall i, j :: 0 <= i < j < |allocators| ==> allocators[i] != allocators[j]
      ensures Valid() && this.allocators == allocators && stackIndex == 0
    {
      this.allocators, stackIndex := allocators, 0;
    }

    ghost function Look(i: nat): Record
      requires i < |allocators|
      reads allocators[i]
    {
      Record(allocators[i].top, allocators[i].allocations, allocators[i].live)
    }

    method SwapBuffers()
      requires Valid()
      modifies this, allocators
      ensures Valid() && stackIndex == Round(old(stackIndex) + 1, |allocators|)
      ensures Look(stackIndex) == Record(0, map[], [])
      ensures forall i :: 0 <= i < |allocators| && i != stackIndex ==> Look(i) == old(Look(i))
    {
      stackIndex := Round(stackIndex + 1, |allocators|);
      allocators[stackIndex].Clear();
    }

    method Alloc(n: nat) returns (result: Result<nat, Failure>)
      requires Valid() && n < WORD
      modifies allocators[stackIndex]
      ensures Valid() && allocators[stackIndex].size == old(allocators[stackIndex].size)
      ensures result.Err? <==> (old(allocators[stackIndex].top) + n) % WORD > allocators[stackIndex].size
      ensures var before := old(Look(stackIndex));
              Look(stackIndex) == match result
                                  case Err(_) => before
                                  case Ok(p) => Record((before.top + n) % WORD, before.allocations[before.top := n],
                                                       if n > 0 then before.live + [Block(p, n)] else before.live)
      ensures result.Ok? ==> result.value == old(allocators[stackIndex].top)
      ensures forall i :: 0 <= i < |allocators| && i != stackIndex ==> Look(i) == old(Look(i))
      ensures old(allocators[stackIndex].Valid()) ==>
                (allocators[stackIndex].Valid() <==> result.Err? || old(allocators[stackIndex].top) + n < WORD)
    {
      result := allocators[stackIndex].Alloc(n);
    }

    method Free(p: nat) returns (result: Result<(), Failure>)
      requires Valid()
      modifies allocators[stackIndex]
      ensures Valid() && allocators[stackIndex].size == old(allocators[stackIndex].size)
      ensures result.Err? <==> p !in old(allocators[stackIndex].allocations)
      ensures var before, after := old(Look(stackIndex)), Look(stackIndex);
              if result.Err? then after == before
              else after.top == (before.top - before.allocations[p]) % WORD
                   && after.allocations == before.allocations - {p}
      ensures forall i :: 0 <= i < |allocators| && i != stackIndex ==> Look(i) == old(Look(i))
      ensures var before := old(Look(stackIndex));
              old(allocators[stackIndex].Valid()) && before.live != []
              && p == before.live[|before.live| - 1].start ==>
                allocators[stackIndex].Valid() && Look(stackIndex).live == before.live[..|before.live| - 1]
    {
      result := allocators[stackIndex].Free(p);
    }

    /** No two blocks that the current frame has allocated and not freed overlap. */
    lemma FrameApart(i: nat, j: nat)
      requires Valid() && allocators[stackIndex].Valid() && i < j < |allocators[stackIndex].live|
      ensures var live := allocators[stackIndex].live;
              && live[i].start + live[i].size <= live[j].start
              && live[j].start + live[j].size <= allocators[stackIndex].size
    {
      BlocksApart(allocators[stackIndex].live, allocators[stackIndex].top, i, j);
      PrefixTiled(allocators[stackIndex].live, allocators[stackIndex].top, j);
    }

    /** One of the calls that a client may make. */
    method Call(use: Use)
      requires Valid() && (use.Take? ==> use.size < WORD)
      modifies this, allocators
      ensures Valid() && stackIndex == if use.Swap? then Round(old(stackIndex) + 1, |allocators|) else old(stackIndex)
      ensures forall i :: 0 <= i < |allocators| && i != stackIndex ==> Look(i) == old(Look(i))
    {
      match use {
        case Swap => SwapBuffers();
        case Take(n) => var _ := Alloc(n);
        case Give(p) => var _ := Free(p);
      }
    }

    /**
     * What a frame has allocated stays as it is through all calls of later frames, frees of any
     * pointer included, with fewer swaps in all than there are buffers.
     */
    method LaterFrames(uses: seq<Use>)
      requires Valid() && forall k :: 0 <= k < |uses| && uses[k].Take? ==> uses[k].size < WORD
      modifies this, allocators
      ensures Valid() && stackIndex == Round(old(stackIndex) + 1 + Swaps(uses), |allocators|)
      ensures 1 + Swaps(uses) < |allocators| ==> Look(old(stackIndex)) == old(Look(stackIndex))
    {
      hide Round;
      ghost var start := stackIndex;
      ghost var swaps := 1;
      SwapBuffers();
      RingStep(start, 0, |allocators|);
      var k := 0;
      while k < |uses|
        invariant 0 <= k <= |uses| && Valid()
        invariant swaps == 1 + Swaps(uses[..k]) && stackIndex == Round(start + swaps, |allocators|)
        invariant swaps < |allocators| ==> Look(start) == old(Look(stackIndex))
      {
        assert uses[..k + 1][..k] == uses[..k];
        RingStep(start, swaps - 1, |allocators|);
        RingStep(start, swaps, |allocators|);
        Call(uses[k]);
        if uses[k].Swap? {
          swaps := swaps + 1;
        }
        k := k + 1;
      }
      assert uses[..k] == uses;
    }

    /** The blocks of a frame live through fewer swaps than there are buffers, and no longer. */
    method SwapOften(times: nat)
      requires Valid()
      modifies this, allocators
      ensures Valid()
      ensures Look(old(stackIndex)).live == if times < |allocators| then old(Look(stackIndex)).live else []
    {
      hide Round;
      ghost var start := stackIndex;
      var i := 0;
      RoundAtStart(start + i, |allocators|);
      while i < times
        invariant 0 <= i <= times && Valid() && stackIndex == Round(start + i, |allocators|)
        invariant Look(start).live == if i < |allocators| then old(Look(stackIndex)).live else []
      {
        RingStep(start, i, |allocators|);
        ghost var before := Look(start);
        SwapBuffers();
        assert stackIndex != start ==> Look(start) == before;
        i := i + 1;
      }
    }
  }

  /** One step further round the ring; the first index comes again exactly after a whole round. */
  lemma RingStep(start: nat, i: nat, n: nat)
    requires start < n
    ensures Round(Round(start + i, n) + 1, n) == Round(start + i + 1, n)
    ensures i + 1 < n ==> Round(start + i + 1, n) != start
    ensures i + 1 == n ==> Round(start + i + 1, n) == start
  {
    var q, r := (start + i) / n, (start + i) % n;
    if r + 1 < n {
      DivisionIs(start + i + 1, n, q, r + 1);
      DivisionIs(r + 1, n, 0, r + 1);
    } else {
      DivisionIs(start + i + 1, n, q + 1, 0);
      DivisionIs(n, n, 1, 0);
    }
    if i + 1 < n {
      if start + i + 1 < n {
        DivisionIs(start + i + 1, n, 0, start + i + 1);
      } else {
        DivisionIs(start + i + 1, n, 1, start + i + 1 - n);
      }
    } else if i + 1 == n {
      DivisionIs(start + i + 1, n, 1, start);
    }
  }
}

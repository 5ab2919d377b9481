/**
 * The pool allocator, whose free list is a chain of pointers kept inside the free slots.
 * A pointer is the number of the slot it points to; the end of the pool is slot number C.
 */
module PoolAllocators {
  import opened Wrappers
  import opened Basics

  const NULLPTR := -1

  datatype Failure = BadAlloc

  // ---------------------------------------------------------------- the chain of free slots

  /** From `head`, the pointers in memory run through `free` and then to the end of the pool. */
  predicate Chain(memory: seq<int>, head: int, free: seq<nat>)
    decreases |free|
  {
    if free == [] then head == |memory|
    else head == free[0] && free[0] < |memory| && Chain(memory, memory[free[0]], free[1..])
  }

  lemma {:induction false} ChainUntouched(before: seq<int>, after: seq<int>, head: int, free: seq<nat>)
    requires Chain(before, head, free) && |after| == |before|
    requires forall i :: 0 <= i < |before| && i in free ==> after[i] == before[i]
    ensures Chain(after, head, free)
    decreases |free|
  {
    if free != [] {
      ChainUntouched(before, after, before[free[0]], free[1..]);
    }
  }

  /** The slots from `i` on, in ascending order. */
  function From(i: nat, capacity: nat): (s: seq<nat>)
    requires i <= capacity
    ensures |s| == capacity - i && forall k :: 0 <= k < |s| ==> s[k] == i + k
    decreases capacity - i
  {
    if i == capacity then [] else [i] + From(i + 1, capacity)
  }

  lemma {:induction false} AscendingChain(memory: seq<int>, i: nat)
    requires i <= |memory|
    requires forall k :: i <= k < |memory| ==> memory[k] == k + 1
    ensures Chain(memory, i, From(i, |memory|))
    decreases |memory| - i
  {
    if i < |memory| {
      AscendingChain(memory, i + 1);
      assert From(i, |memory|)[1..] == From(i + 1, |memory|);
    }
  }

  lemma AllAreFree(capacity: nat)
    ensures Partition(From(0, capacity), {}, capacity)
  {
    forall i: nat ensures i < capacity <==> i in From(0, capacity) {
      if i < capacity {
        assert From(0, capacity)[i] == i;
      }
    }
  }

  // ---------------------------------------------------------------- free and live slots

  function Slots(capacity: nat): (s: set<nat>)
    ensures |s| == capacity && forall i: nat :: i in s <==> i < capacity
  {
    if capacity == 0 then {} else Slots(capacity - 1) + {capacity - 1}
  }

  /** Every slot is either on the free list, once, or live. */
  ghost predicate Partition(free: seq<nat>, live: set<nat>, capacity: nat) {
    Distinct(free) && forall i: nat :: i < capacity <==> (i in free) != (i in live)
  }

  ghost predicate Apart(free: seq<nat>, live: set<nat>) {
    forall i :: i in free ==> i !in live
  }

  lemma {:induction false} PartitionCounted(free: seq<nat>, live: set<nat>, capacity: nat)
    requires Partition(free, live, capacity) && Apart(free, live)
    ensures |free| + |live| == capacity
    decreases |free|
  {
    if free == [] {
      assert live == Slots(capacity);
    } else {
      var rest, more := free[1..], live + {free[0]};
      assert free == [free[0]] + rest;
      PartitionCounted(rest, more, capacity);
    }
  }

  class PoolAllocator {
    const pool: array<int>
    var head: int
    var full: bool
    ghost var free: seq<nat>
    ghost var live: set<nat>

    /** With no slots at all, the pool does not know that it is full. */
    ghost predicate Valid()
      reads this, pool
    {
      && Chain(pool[..], head, free)
      && Partition(free, live, pool.Length) && Apart(free, live)
      && (full <==> free == [] && pool.Length > 0)
    }

    constructor (capacity: nat)
      ensures Valid() && pool.Length == capacity && fresh(pool) && live == {} && free == From(0, capacity)
    {
      pool := new int[capacity];
      head, full, free, live := NULLPTR, false, [], {};
      new;
      Clear();
    }

    /** Makes every slot free again, in ascending order. */
    method Clear()
      modifies this, pool
      ensures Valid() && live == {} && free == From(0, pool.Length)
    {
      var i := 0;
      while i < pool.Length
        invariant 0 <= i <= pool.Length
        invariant forall k :: 0 <= k < i ==> pool[k] == k + 1
      {
        if i + 1 == pool.Length {
          pool[i] := NULLPTR;
        }
        pool[i] := i + 1;
        i := i + 1;
      }
      head := 0;
      full := false;
      free, live := From(0, pool.Length), {};
      AscendingChain(pool[..], 0);
      AllAreFree(pool.Length);
    }

    /** The slot freed last, now holding `content`; fails exactly when no slot is free. */
    method Alloc(content: int) returns (result: Result<nat, Failure>)
      requires Valid() && pool.Length > 0
      modifies this, pool
      ensures Valid()
      ensures result.Err? <==> old(free) == []
      ensures result.Err? ==> free == old(free) && live == old(live) && pool[..] == old(pool[..])
      ensures result.Ok? ==> [result.value] + free == old(free) && live == old(live) + {result.value}
      ensures result.Ok? ==> pool[..] == old(pool[..])[result.value := content]
    {
      if full {
        return Err(BadAlloc);
      }
      var slot := head;
      head := pool[slot];
      if head == pool.Length {
        full := true;
      }
      pool[slot] := content;
      SlotTaken(old(pool[..]), pool[..], head, free, live, slot);
      free, live := free[1..], live + {slot};
      return Ok(slot);
    }

    /** Puts a live slot on top of the free list; freeing null does nothing. */
    method Free(p: Option<nat>)
      requires Valid() && (p.Some? ==> p.value in live)
      modifies this, pool
      ensures Valid()
      ensures p.None? ==> free == old(free) && live == old(live)
      ensures p.Some? ==> free == [p.value] + old(free) && live == old(live) - {p.value}
      ensures forall i :: i in live ==> i < pool.Length && pool[i] == old(pool[i])
    {
      if p.None? {
        return;
      }
      if full {
        full := false;
      }
      SlotReturned(pool[..], head, free, live, p.value);
      pool[p.value] := head;
      head := p.value;
      free, live := [p.value] + free, live - {p.value};
    }

    /** The owner of a live slot writes to it. */
    method Write(slot: nat, content: int)
      requires Valid() && slot in live
      modifies pool
      ensures Valid() && pool[..] == old(pool[..])[slot := content]
    {
      ChainUntouched(pool[..], pool[..][slot := content], head, free);
      pool[slot] := content;
    }
  }

  lemma SlotTaken(before: seq<int>, after: seq<int>, head: int, free: seq<nat>, live: set<nat>, slot: int)
    requires Chain(before, slot, free) && Partition(free, live, |before|) && Apart(free, live) && free != []
    requires slot == free[0] && head == before[slot] && |after| == |before|
    requires forall i :: 0 <= i < |before| && i != slot ==> after[i] == before[i]
    ensures Chain(after, head, free[1..]) && (head == |before| <==> free[1..] == [])
    ensures Partition(free[1..], live + {free[0]}, |before|) && Apart(free[1..], live + {free[0]})
  {
    var rest := free[1..];
    assert free == [free[0]] + rest;
    ChainUntouched(before, after, head, rest);
    if rest != [] {
      assert rest[0] < |before|;
    }
  }

  lemma SlotReturned(memory: seq<int>, head: int, free: seq<nat>, live: set<nat>, p: nat)
    requires Chain(memory, head, free) && Partition(free, live, |memory|) && Apart(free, live) && p in live
    ensures p < |memory| && Chain(memory[p := head], p, [p] + free)
    ensures Partition([p] + free, live - {p}, |memory|) && Apart([p] + free, live - {p})
  {
    assert p !in free;
    ChainUntouched(memory, memory[p := head], head, free);
    assert ([p] + free)[1..] == free;
  }

  /**
   * The allocator of raw buckets: the same pool, with a count of the allocated buckets.
   * Clearing the pool does not reset that count.
   */
  class BucketPoolAllocator {
    const slots: PoolAllocator
    const checkAllocations: bool
    var allocatedBuckets: nat
    /** The buckets that were allocated when the pool was cleared, over all clearings. */
    ghost var lost: nat

    ghost predicate Valid()
      reads this, slots, slots.pool
    {
      && slots.Valid()
      && (checkAllocations ==> allocatedBuckets == (|slots.live| + lost) % WORD)
    }

    constructor (capacity: nat, checkAllocations: bool)
      ensures Valid() && this.checkAllocations == checkAllocations && slots.pool.Length == capacity
      ensures slots.live == {} && slots.free == From(0, capacity) && lost == 0
      ensures fresh(slots) && fresh(slots.pool)
    {
      slots := new PoolAllocator(capacity);
      this.checkAllocations, allocatedBuckets, lost := checkAllocations, 0, 0;
    }

    method Alloc() returns (result: Result<nat, Failure>)
      requires Valid() && slots.pool.Length > 0
      modifies this, slots, slots.pool
      ensures Valid() && lost == old(lost)
      ensures result.Err? <==> old(slots.free) == []
      ensures result.Err? ==> slots.free == old(slots.free) && slots.live == old(slots.live)
      ensures result.Ok? ==> [result.value] + slots.free == old(slots.free)
      ensures result.Ok? ==> slots.live == old(slots.live) + {result.value} && result.value !in old(slots.live)
      ensures slots.pool[..] == old(slots.pool[..])
    {
      // The bucket keeps what is in it, which is the pointer to the next free one.
      var left := if slots.full then NULLPTR else slots.pool[slots.head];
      result := slots.Alloc(left);
      if result.Ok? && checkAllocations {
        OneMore(|old(slots.live)| + lost);
        allocatedBuckets := (allocatedBuckets + 1) % WORD;
      }
    }

    method Free(p: Option<nat>)
      requires Valid() && (p.Some? ==> p.value in slots.live)
      modifies this, slots, slots.pool
      ensures Valid() && lost == old(lost)
      ensures p.None? ==> slots.free == old(slots.free) && slots.live == old(slots.live)
      ensures p.Some? ==> slots.free == [p.value] + old(slots.free) && slots.live == old(slots.live) - {p.value}
    {
      slots.Free(p);
      if p.Some? && checkAllocations {
        OneMore(|slots.live| + lost);
        allocatedBuckets := (allocatedBuckets - 1) % WORD;
      }
    }

    method Clear()
      requires Valid()
      modifies this, slots, slots.pool
      ensures Valid() && slots.live == {} && slots.free == From(0, slots.pool.Length)
      ensures lost == old(lost) + |old(slots.live)|
    {
      lost := lost + |slots.live|;
      slots.Clear();
    }

    /** The count is right exactly when the pool has only been cleared with no bucket allocated. */
    method GetAllocationSize() returns (size: nat)
      requires Valid() && checkAllocations && |slots.live| + lost < WORD
      ensures size == |slots.live| <==> lost == 0
    {
      size := allocatedBuckets;
    }
  }

  lemma OneMore(n: nat)
    ensures (n % WORD + 1) % WORD == (n + 1) % WORD
    ensures ((n + 1) % WORD - 1) % WORD == n % WORD
  {
  }
}

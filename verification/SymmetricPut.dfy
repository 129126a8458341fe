/** A put to a symmetric object, from the pointer the program passes to the bytes of the target
    (src/shmem.c:112-115, src/memory/heap.c:138-141, src/comm/comm_local.c:117-127). */
module SymmetricPut {
  import opened Memory
  import opened HeapLayout
  import opened HeapTheorems

  /** The block at an address range, as offsets from the base. */
  ghost predicate InBlock(h: Heap, j: nat, x: int)
    requires j < |h.blocks|
  {
    h.blocks[j].start - h.base <= x < h.blocks[j].End() - h.base
  }

  /** comm_local_offset: what the program's pointer becomes before it is sent. */
  function Offset(h: Heap, dest: nat): int { dest - h.base }

  /** `after` is `memory` with the bytes written `skip` bytes into block j, which holds them all;
      nothing else of the memory has changed, and so no other block. */
  ghost predicate WrittenInto(h: Heap, j: nat, skip: nat, memory: seq<nat>, after: seq<nat>, bytes: seq<nat>)
    requires j < |h.blocks|
  {
    var lo := h.blocks[j].start - h.base + skip;
    && skip + |bytes| <= h.blocks[j].size && 0 <= lo && lo + |bytes| <= |memory| == |after|
    && (forall x :: 0 <= x < |memory| ==> after[x] == if lo <= x < lo + |bytes| then bytes[x - lo] else memory[x])
    && (forall i, x :: 0 <= i < |h.blocks| && i != j && 0 <= x < |memory| && InBlock(h, i, x) ==> after[x] == memory[x])
  }

  /** After the same allocation calls on two PEs, a put of bytes to a range inside a block of the
      caller's heap stays inside the target's heap, writes exactly the same range of the target's
      block, counted from the start of the block, and touches no other block of the target. */
  lemma PutTouchesItsBlockOnly(base1: nat, base2: nat, size: nat, calls: seq<Call>, j: nat, dest: nat,
                               memory: seq<nat>, bytes: seq<nat>)
    requires |memory| == size
    ensures Init(base1, size).Valid() && Init(base2, size).Valid()
    ensures var mine, theirs := Run(Init(base1, size), calls).0, Run(Init(base2, size), calls).0;
            0 < j < |mine.blocks| && mine.blocks[j].start <= dest && dest + |bytes| <= mine.blocks[j].End() ==>
              && j < |theirs.blocks| && 0 <= Offset(mine, dest) && Offset(mine, dest) + |bytes| <= size
              && WrittenInto(theirs, j, dest - mine.blocks[j].start, memory,
                             Memcpy(memory, Offset(mine, dest), bytes), bytes)
  {
    SymmetricHeaps(base1, base2, size, calls);
    var mine, theirs := Run(Init(base1, size), calls).0, Run(Init(base2, size), calls).0;
    RunInvariant(Init(base1, size), calls);
    RunInvariant(Init(base2, size), calls);
    if 0 < j < |mine.blocks| && mine.blocks[j].start <= dest && dest + |bytes| <= mine.blocks[j].End() {
      PutInBlock(mine, theirs, j, dest, memory, bytes);
    }
  }

  lemma PutInBlock(mine: Heap, theirs: Heap, j: nat, dest: nat, memory: seq<nat>, bytes: seq<nat>)
    requires Translated(mine, theirs) && mine.Valid() && theirs.Valid() && |memory| == mine.size
    requires 0 < j < |mine.blocks| && mine.blocks[j].start <= dest && dest + |bytes| <= mine.blocks[j].End()
    ensures 0 <= Offset(mine, dest) && Offset(mine, dest) + |bytes| <= mine.size
    ensures WrittenInto(theirs, j, dest - mine.blocks[j].start, memory,
                        Memcpy(memory, Offset(mine, dest), bytes), bytes)
  {
    StartsInside(mine, j);
    EndsInside(mine, j);
    MemcpyExactly(memory, Offset(mine, dest), bytes);
    assert theirs.blocks[j].start - theirs.base == mine.blocks[j].start - mine.base;
    forall i, x | 0 <= i < |theirs.blocks| && i != j && InBlock(theirs, i, x)
      ensures x < Offset(mine, dest) || x >= Offset(mine, dest) + |bytes|
    {
      if i < j { Ordered(theirs, i, j); } else { Ordered(theirs, j, i); }
    }
  }
}

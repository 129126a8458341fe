/** Properties of whole runs of the symmetric heap. */
module HeapTheorems {
  import opened Wrappers
  import opened HeapLayout

  // ---- Runs of allocation calls ----

  /** A call of the program; a release names the block by its offset, which is what equal
      programs on different PEs share. */
  datatype Call = Allocate(bytes: nat) | Release(offset: nat)

  /** The heap after a call, and the offset returned. */
  ghost function Step(h: Heap, call: Call): (Heap, Option<int>)
    requires h.Valid()
  {
    match call
    case Allocate(bytes) =>
      var (h', address) := Malloc(h, bytes);
      (h', if address.None? then None else Some(address.value - h.base))
    case Release(offset) => (Free(h, h.base + offset), None)
  }

  lemma StepValid(h: Heap, call: Call)
    requires h.Valid()
    ensures Step(h, call).0.Valid() && Step(h, call).0.base == h.base && Step(h, call).0.size == h.size
  {
    match call
    case Allocate(bytes) => MallocValid(h, bytes);
    case Release(offset) => FreeValid(h, h.base + offset);
  }

  ghost function Run(h: Heap, calls: seq<Call>): (Heap, seq<Option<int>>)
    requires h.Valid()
    decreases |calls|
  {
    if calls == [] then (h, [])
    else
      StepValid(h, calls[0]);
      var (h1, offset) := Step(h, calls[0]);
      var (h2, offsets) := Run(h1, calls[1..]);
      (h2, [offset] + offsets)
  }

  lemma InitValid(base: nat, size: nat)
    ensures Init(base, size).Valid() && Init(base, size).Solid()
  {}

  /** After any run: the list is address-ordered, blocks are disjoint and inside the region, no
      gap is negative, and allocated plus free bytes are the size of the region. */
  lemma {:induction false} RunInvariant(h: Heap, calls: seq<Call>)
    requires h.Valid()
    ensures var h' := Run(h, calls).0;
            && h'.Valid() && h'.base == h.base && h'.size == h.size
            && BytesFrom(h', 0) + GapsFrom(h', 0) == h.size
            && (forall i :: 0 <= i < |h'.blocks| ==> h.base <= h'.blocks[i].start && h'.blocks[i].End() <= h.Limit())
            && (forall i, j :: 0 <= i < j < |h'.blocks| ==> h'.blocks[i].End() <= h'.blocks[j].start)
    decreases |calls|
  {
    if calls != [] {
      StepValid(h, calls[0]);
      RunInvariant(Step(h, calls[0]).0, calls[1..]);
    } else {
      Conserved(h);
      forall i: nat | i < |h.blocks| ensures h.base <= h.blocks[i].start && h.blocks[i].End() <= h.Limit() {
        StartsInside(h, i);
        EndsInside(h, i);
      }
      forall i: nat, j: nat | i < j < |h.blocks| ensures h.blocks[i].End() <= h.blocks[j].start {
        Ordered(h, i, j);
      }
    }
  }

  /** A block that nobody releases stays. */
  lemma {:induction false} BlockStays(h: Heap, calls: seq<Call>, block: Block)
    requires h.Valid() && h.base <= block.start && block in h.blocks
    requires forall k :: 0 <= k < |calls| ==> calls[k] != Release(block.start - h.base)
    ensures block in Run(h, calls).0.blocks
    decreases |calls|
  {
    if calls != [] {
      var h' := Step(h, calls[0]).0;
      StepValid(h, calls[0]);
      StaysOnce(h, calls[0], block);
      BlockStays(h', calls[1..], block);
    }
  }

  lemma StaysOnce(h: Heap, call: Call, block: Block)
    requires h.Valid() && h.base <= block.start && block in h.blocks && call != Release(block.start - h.base)
    ensures block in Step(h, call).0.blocks
  {
    var i :| 0 <= i < |h.blocks| && h.blocks[i] == block;
    match call
    case Allocate(bytes) =>
      var at := Search(h, h.head, bytes);
      if at.Some? { StaysInserted(h, at.value, bytes, i); }
    case Release(offset) =>
      FindInRange(h.blocks, 1, h.base + offset);
      var at := Find(h, h.base + offset);
      if at.Some? { StaysRemoved(h, at.value, i); }
  }

  lemma StaysInserted(h: Heap, at: nat, bytes: nat, i: nat)
    requires at < |h.blocks| && i < |h.blocks|
    ensures h.blocks[i] in InsertAfter(h, at, bytes).blocks
  {
    assert InsertAfter(h, at, bytes).blocks[if i <= at then i else i + 1] == h.blocks[i];
  }

  lemma StaysRemoved(h: Heap, at: nat, i: nat)
    requires 0 < at < |h.blocks| && i < |h.blocks| && i != at
    ensures h.blocks[i] in RemoveAt(h, at).blocks
  {
    assert RemoveAt(h, at).blocks[if i < at then i else i - 1] == h.blocks[i];
  }

  // ---- Symmetry ----

  /** The same layout at another base address. */
  ghost predicate Translated(h: Heap, g: Heap)
  {
    && h.size == g.size && h.head == g.head && |h.blocks| == |g.blocks|
    && forall i :: 0 <= i < |h.blocks| ==>
         h.blocks[i].size == g.blocks[i].size && h.blocks[i].start - h.base == g.blocks[i].start - g.base
  }

  lemma {:induction false} SearchTranslated(h: Heap, g: Heap, i: nat, bytes: nat)
    requires Translated(h, g) && i < |h.blocks| && h.head < |h.blocks|
    ensures Search(h, i, bytes) == Search(g, i, bytes)
    decreases |h.blocks| - h.Turn(i)
  {
    assert h.Gap(i) == g.Gap(i);
    if h.Gap(i) < bytes && h.Next(i) != h.head { SearchTranslated(h, g, h.Next(i), bytes); }
  }

  lemma {:induction false} FindTranslated(h: Heap, g: Heap, i: nat, offset: nat)
    requires Translated(h, g) && h.base + offset >= 0
    ensures FindFrom(h.blocks, i, h.base + offset) == FindFrom(g.blocks, i, g.base + offset)
    decreases |h.blocks| - i
  {
    if i < |h.blocks| {
      assert h.blocks[i].start - h.base == g.blocks[i].start - g.base;
      if h.blocks[i].start != h.base + offset { FindTranslated(h, g, i + 1, offset); }
    }
  }

  lemma InsertTranslated(h: Heap, g: Heap, i: nat, bytes: nat)
    requires Translated(h, g) && i < |h.blocks|
    ensures Translated(InsertAfter(h, i, bytes), InsertAfter(g, i, bytes))
  {}

  lemma RemoveTranslated(h: Heap, g: Heap, j: nat)
    requires Translated(h, g) && 0 < j < |h.blocks|
    ensures Translated(RemoveAt(h, j), RemoveAt(g, j))
  {}

  lemma StepTranslated(h: Heap, g: Heap, call: Call)
    requires h.Valid() && g.Valid() && Translated(h, g)
    ensures Translated(Step(h, call).0, Step(g, call).0)
    ensures Step(h, call).1 == Step(g, call).1
  {
    match call
    case Allocate(bytes) =>
      SearchTranslated(h, g, h.head, bytes);
      var r := Search(h, h.head, bytes);
      if r.Some? { InsertTranslated(h, g, r.value, bytes); }
    case Release(offset) =>
      FindTranslated(h, g, 1, offset);
      FindInRange(h.blocks, 1, h.base + offset);
      var r := Find(h, h.base + offset);
      if r.Some? { RemoveTranslated(h, g, r.value); }
  }

  lemma {:induction false} RunTranslated(h: Heap, g: Heap, calls: seq<Call>)
    requires h.Valid() && g.Valid() && Translated(h, g)
    ensures Run(h, calls).1 == Run(g, calls).1
    ensures Translated(Run(h, calls).0, Run(g, calls).0)
    decreases |calls|
  {
    if calls != [] {
      StepTranslated(h, g, calls[0]);
      StepValid(h, calls[0]);
      StepValid(g, calls[0]);
      RunTranslated(Step(h, calls[0]).0, Step(g, calls[0]).0, calls[1..]);
    }
  }

  /** Symmetric heap: two heaps of one size at any two base addresses, given the same calls,
      return the same offsets or NULL at every call and keep layouts equal up to translation. */
  lemma SymmetricHeaps(base1: nat, base2: nat, size: nat, calls: seq<Call>)
    ensures Init(base1, size).Valid() && Init(base2, size).Valid()
    ensures Run(Init(base1, size), calls).1 == Run(Init(base2, size), calls).1
    ensures Translated(Run(Init(base1, size), calls).0, Run(Init(base2, size), calls).0)
  {
    InitValid(base1, size);
    InitValid(base2, size);
    RunTranslated(Init(base1, size), Init(base2, size), calls);
  }

  // ---- Allocation only: a bump allocator ----

  function SumOfFits(size: nat, used: nat, requests: seq<nat>): nat
    decreases |requests|
  {
    if requests == [] then used
    else SumOfFits(size, if used + requests[0] <= size then used + requests[0] else used, requests[1..])
  }

  /** The offsets a bump allocator hands out. */
  function Bump(size: nat, used: nat, requests: seq<nat>): seq<Option<int>>
    decreases |requests|
  {
    if requests == [] then []
    else if used + requests[0] <= size then [Some(used)] + Bump(size, used + requests[0], requests[1..])
    else [None] + Bump(size, used, requests[1..])
  }

  function Allocations(requests: seq<nat>): seq<Call>
  {
    seq(|requests|, k requires 0 <= k < |requests| => Allocate(requests[k]))
  }

  /** No free bytes except after the last block, which is where the search starts. */
  ghost predicate Packed(h: Heap, used: nat)
  {
    && h.Valid() && h.head == |h.blocks| - 1
    && (forall i :: 0 <= i < |h.blocks| - 1 ==> h.Gap(i) == 0)
    && h.blocks[h.head].End() == h.base + used && used <= h.size
  }

  /** A packed heap has one gap worth looking at, and the search looks there first. */
  lemma PackedMalloc(h: Heap, used: nat, bytes: nat)
    requires Packed(h, used)
    ensures used + bytes <= h.size ==>
              && Malloc(h, bytes) == (InsertAfter(h, h.head, bytes), Some(h.base + used))
              && Packed(InsertAfter(h, h.head, bytes), used + bytes)
    ensures used + bytes > h.size ==> Malloc(h, bytes) == (h, None)
  {
    assert h.Gap(h.head) == h.size - used;
    if used + bytes <= h.size {
      InsertPacked(h, used, bytes);
    } else {
      SearchExactly(h, h.head, bytes);
    }
  }

  lemma InsertPacked(h: Heap, used: nat, bytes: nat)
    requires Packed(h, used) && used + bytes <= h.size
    ensures Packed(InsertAfter(h, h.head, bytes), used + bytes)
  {
    var h' := InsertAfter(h, h.head, bytes);
    InsertValid(h, h.head, bytes);
    forall i | 0 <= i < |h'.blocks| - 1 ensures h'.Gap(i) == 0 {
      if i < h.head { assert h'.Gap(i) == h.Gap(i); }
    }
  }

  /** A run is its first call and the rest. */
  lemma RunCons(h: Heap, calls: seq<Call>)
    requires h.Valid() && calls != []
    ensures Step(h, calls[0]).0.Valid()
    ensures Run(h, calls).0 == Run(Step(h, calls[0]).0, calls[1..]).0
    ensures Run(h, calls).1 == [Step(h, calls[0]).1] + Run(Step(h, calls[0]).0, calls[1..]).1
  {
    StepValid(h, calls[0]);
  }

  lemma AllocationsTail(requests: seq<nat>)
    requires requests != []
    ensures |Allocations(requests)| == |requests| && Allocations(requests)[0] == Allocate(requests[0])
    ensures Allocations(requests)[1..] == Allocations(requests[1..])
  {}

  /** One request on a packed heap. */
  lemma PackedStep(h: Heap, used: nat, bytes: nat) returns (used': nat)
    requires Packed(h, used)
    ensures h.Valid() && Packed(Step(h, Allocate(bytes)).0, used') && Step(h, Allocate(bytes)).0.size == h.size
    ensures used' == if used + bytes <= h.size then used + bytes else used
    ensures Step(h, Allocate(bytes)).1 == if used + bytes <= h.size then Some(used) else None
  {
    PackedMalloc(h, used, bytes);
    StepValid(h, Allocate(bytes));
    used' := if used + bytes <= h.size then used + bytes else used;
  }

  lemma {:induction false} PackedRun(h: Heap, used: nat, requests: seq<nat>)
    requires Packed(h, used) && h.Valid()
    ensures Run(h, Allocations(requests)).1 == Bump(h.size, used, requests)
    ensures Packed(Run(h, Allocations(requests)).0, SumOfFits(h.size, used, requests))
    decreases |requests|
  {
    hide Packed, Step, Allocations, Run;
    if requests == [] {
      RunNothing(h);
    } else {
      var calls := Allocations(requests);
      AllocationsTail(requests);
      RunCons(h, calls);
      var used' := PackedStep(h, used, requests[0]);
      PackedRun(Step(h, calls[0]).0, used', requests[1..]);
    }
  }

  lemma RunNothing(h: Heap)
    requires h.Valid()
    ensures Allocations([]) == [] && Run(h, []) == (h, [])
  {}

  /** Without releases the heap is a bump allocator: each success returns the sum of the
      earlier successful sizes, and a request fails exactly when it no longer fits. */
  lemma AllocationsBump(base: nat, size: nat, requests: seq<nat>)
    ensures Init(base, size).Valid()
    ensures Run(Init(base, size), Allocations(requests)).1 == Bump(size, 0, requests)
  {
    PackedRun(Init(base, size), 0, requests);
  }

  // ---- Free undone by malloc ----

  /** After block j is freed the search starts behind it and reaches its gap last. */
  lemma FreedGapIsLast(h: Heap, j: nat, k: nat)
    requires h.Valid() && 0 < j < |h.blocks|
    requires k < |h.blocks| - 1
    ensures var h' := RemoveAt(h, j);
            h'.head < |h'.blocks| && h'.Turn(k) <= h'.Turn(j - 1)
  {}

  /** Gaps other than the two around block j are untouched when it is freed. */
  lemma OtherGaps(h: Heap, j: nat, k: nat)
    requires h.Valid() && 0 < j < |h.blocks| && k < |h.blocks| - 1 && k != j - 1
    ensures var h' := RemoveAt(h, j);
            h'.Gap(k) == h.Gap(if k < j then k else k + 1)
  {}

  /** Allocating the size of a block just freed gives its address back exactly when there is no
      gap in front of the block and every gap not touching it is too small; the block list is
      then what it was. */
  lemma FreeThenMalloc(h: Heap, j: nat)
    requires h.Valid() && h.Solid() && 0 < j < |h.blocks|
    ensures Free(h, h.blocks[j].start).Valid()
    ensures var z := h.blocks[j].size;
            var r := Malloc(Free(h, h.blocks[j].start), z);
            && (r.1 == Some(h.blocks[j].start) <==>
                  h.Gap(j - 1) == 0 && forall k :: 0 <= k < |h.blocks| && k != j - 1 && k != j ==> h.Gap(k) < z)
            && (r.1 == Some(h.blocks[j].start) ==> r.0.blocks == h.blocks && r.0.head == j)
  {
    var z := h.blocks[j].size;
    var p := h.blocks[j].start;
    FindUnique(h, j);
    FindInRange(h.blocks, 1, p);
    var h' := RemoveAt(h, j);
    assert Free(h, p) == h';
    RemoveValid(h, j);
    MallocExactly(h', z);
    var i :| 0 <= i < |h'.blocks| && h'.Gap(i) >= z
             && (forall k :: 0 <= k < |h'.blocks| && h'.Turn(k) < h'.Turn(i) ==> h'.Gap(k) < z)
             && Malloc(h', z) == (InsertAfter(h', i, z), Some(h'.blocks[i].End()));
    FreedGap(h, j, i);
  }

  /** In a full heap any block can be freed and allocated again at the same address. */
  lemma FullHeapReuse(h: Heap, j: nat)
    requires h.Valid() && h.Solid() && 0 < j < |h.blocks|
    requires forall k :: 0 <= k < |h.blocks| ==> h.Gap(k) == 0
    ensures Free(h, h.blocks[j].start).Valid()
    ensures var r := Malloc(Free(h, h.blocks[j].start), h.blocks[j].size);
            r.1 == Some(h.blocks[j].start) && r.0.blocks == h.blocks
  {
    FreeThenMalloc(h, j);
  }

  /** The search after the release stops at i; it is the freed gap exactly when nothing else fits. */
  lemma FreedGap(h: Heap, j: nat, i: nat)
    requires h.Valid() && h.Solid() && 0 < j < |h.blocks|
    requires var h' := RemoveAt(h, j); var z := h.blocks[j].size;
             h'.Valid() && i < |h'.blocks| && h'.Gap(i) >= z
             && (forall k :: 0 <= k < |h'.blocks| && h'.Turn(k) < h'.Turn(i) ==> h'.Gap(k) < z)
    ensures var h' := RemoveAt(h, j); var z := h.blocks[j].size;
            && (h'.blocks[i].End() == h.blocks[j].start <==>
                  h.Gap(j - 1) == 0 && forall k :: 0 <= k < |h.blocks| && k != j - 1 && k != j ==> h.Gap(k) < z)
            && (h'.blocks[i].End() == h.blocks[j].start ==> InsertAfter(h', i, z).blocks == h.blocks && i == j - 1)
  {
    if i == j - 1 {
      ReachedLast(h, j);
    } else {
      OtherGaps(h, j, i);
      var k := if i < j then i else i + 1;
      assert h.Gap(k) >= h.blocks[j].size;
      FarFromFreed(h, j, k);
    }
  }

  lemma ReachedLast(h: Heap, j: nat)
    requires h.Valid() && 0 < j < |h.blocks|
    requires var h' := RemoveAt(h, j); var z := h.blocks[j].size;
             h'.head < |h'.blocks|
             && (forall k :: 0 <= k < |h'.blocks| && h'.Turn(k) < h'.Turn(j - 1) ==> h'.Gap(k) < z)
    ensures forall k :: 0 <= k < |h.blocks| && k != j - 1 && k != j ==> h.Gap(k) < h.blocks[j].size
  {
    forall k: nat | k < |h.blocks| && k != j - 1 && k != j ensures h.Gap(k) < h.blocks[j].size {
      var k' := if k < j then k else k - 1;
      FreedGapIsLast(h, j, k');
      OtherGaps(h, j, k');
    }
  }

  /** No other block of a solid heap ends where block j starts. */
  lemma FarFromFreed(h: Heap, j: nat, k: nat)
    requires h.Valid() && h.Solid() && 0 < j < |h.blocks| && k < |h.blocks| && k != j - 1 && k != j
    requires h.Gap(k) >= h.blocks[j].size
    ensures h.blocks[k].End() != h.blocks[j].start
  {
    if k < j {
      Ordered(h, k + 1, j);
    } else {
      Ordered(h, j, k);
    }
  }
}

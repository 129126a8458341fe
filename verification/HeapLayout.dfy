/** The symmetric heap as a layout: an address-ordered list of blocks after a dummy, and a
    roving position where the next search starts (src/memory/heap.c). Malloc and Free here
    specify the pointer-level heap of module SymmetricHeap. */
module HeapLayout {
  import opened Wrappers

  /** Buckets of the index that heap_init creates (src/memory/heap.c:3). */
  const BUCKETS: nat := 1023

  datatype Block = Block(start: nat, size: nat) {
    function End(): nat { start + size }
  }

  /** `blocks[0]` is the dummy at the base address; `head` is where the next search starts. */
  datatype Heap = Heap(base: nat, size: nat, blocks: seq<Block>, head: nat) {
    function Limit(): nat { base + size }

    /** Free bytes between a block and its successor, or the end of the region. */
    function Gap(i: nat): int
      requires i < |blocks|
    {
      (if i + 1 == |blocks| then Limit() else blocks[i + 1].start) - blocks[i].End()
    }

    function Next(i: nat): nat
      requires i < |blocks|
    {
      if i + 1 == |blocks| then 0 else i + 1
    }

    /** Steps from the head to block i around the ring. */
    function Turn(i: nat): nat
      requires i < |blocks| && head < |blocks|
    {
      if i >= head then i - head else i + |blocks| - head
    }

    /** No gap computation underflows, and the dummy opens the list. */
    ghost predicate Valid()
    {
      && |blocks| > 0 && blocks[0] == Block(base, 0)
      && head < |blocks|
      && forall i :: 0 <= i < |blocks| ==> Gap(i) >= 0
    }

    /** Every block but the dummy has at least one byte. */
    ghost predicate Solid()
    {
      forall i :: 0 < i < |blocks| ==> blocks[i].size > 0
    }
  }

  function Init(base: nat, size: nat): Heap
  {
    Heap(base, size, [Block(base, 0)], 0)
  }

  /** The search loop: from block i around the ring until a gap fits or the head comes up again. */
  function Search(h: Heap, i: nat, bytes: nat): (r: Option<nat>)
    requires i < |h.blocks| && h.head < |h.blocks|
    ensures r.Some? ==> r.value < |h.blocks| && h.Gap(r.value) >= bytes
    decreases |h.blocks| - h.Turn(i)
  {
    if h.Gap(i) >= bytes then Some(i)
    else if h.Next(i) == h.head then None
    else Search(h, h.Next(i), bytes)
  }

  /** Splice a block of the given size in after block i, and move the head to it. */
  function InsertAfter(h: Heap, i: nat, bytes: nat): Heap
    requires i < |h.blocks|
  {
    h.(blocks := h.blocks[..i + 1] + [Block(h.blocks[i].End(), bytes)] + h.blocks[i + 1..], head := i + 1)
  }

  /** Next-fit allocation: the new heap, and the address of the block or NULL. */
  function Malloc(h: Heap, bytes: nat): (Heap, Option<nat>)
    requires h.head < |h.blocks|
  {
    match Search(h, h.head, bytes)
    case None => (h, None)
    case Some(i) => (InsertAfter(h, i, bytes), Some(h.blocks[i].End()))
  }

  /** The position of the first block after the dummy that starts at an address. */
  function FindFrom(blocks: seq<Block>, i: nat, address: nat): Option<nat>
    decreases |blocks| - i
  {
    if i >= |blocks| then None
    else if blocks[i].start == address then Some(i)
    else FindFrom(blocks, i + 1, address)
  }

  function Find(h: Heap, address: nat): Option<nat> { FindFrom(h.blocks, 1, address) }

  /** Take block j out; the head moves to its successor, or to the dummy. */
  function RemoveAt(h: Heap, j: nat): Heap
    requires 0 < j < |h.blocks|
  {
    h.(blocks := h.blocks[..j] + h.blocks[j + 1..], head := if j + 1 == |h.blocks| then 0 else j)
  }

  lemma {:induction false} FindInRange(blocks: seq<Block>, i: nat, address: nat)
    ensures var r := FindFrom(blocks, i, address);
            && (r.Some? ==> i <= r.value < |blocks| && blocks[r.value].start == address
                            && forall k :: i <= k < r.value ==> blocks[k].start != address)
            && (r.None? ==> forall k :: i <= k < |blocks| ==> blocks[k].start != address)
    decreases |blocks| - i
  {
    if i < |blocks| && blocks[i].start != address { FindInRange(blocks, i + 1, address); }
  }

  ghost function Free(h: Heap, address: nat): Heap
  {
    FindInRange(h.blocks, 1, address);
    match Find(h, address)
    case None => h
    case Some(j) => RemoveAt(h, j)
  }

  // ---- Order and disjointness ----

  lemma {:induction false} Ordered(h: Heap, i: nat, j: nat)
    requires h.Valid() && i < j < |h.blocks|
    ensures h.base <= h.blocks[i].start && h.blocks[i].End() <= h.blocks[j].start && h.blocks[j].End() <= h.Limit()
    decreases j - i, |h.blocks| - j, i
  {
    if i + 1 < j {
      Ordered(h, i + 1, j);
      assert h.Gap(i) >= 0;
    } else {
      assert h.Gap(i) >= 0 && h.Gap(j) >= 0;
      if j + 1 < |h.blocks| { EndsInside(h, j); }
      StartsInside(h, i);
    }
    StartsInside(h, i);
  }

  lemma {:induction false} EndsInside(h: Heap, j: nat)
    requires h.Valid() && j < |h.blocks|
    ensures h.blocks[j].End() <= h.Limit()
    decreases |h.blocks| - j
  {
    assert h.Gap(j) >= 0;
    if j + 1 < |h.blocks| { EndsInside(h, j + 1); }
  }

  lemma {:induction false} StartsInside(h: Heap, i: nat)
    requires h.Valid() && i < |h.blocks|
    ensures h.base <= h.blocks[i].start
  {
    if i > 0 {
      StartsInside(h, i - 1);
      assert h.Gap(i - 1) >= 0;
    }
  }

  /** Blocks never overlap and stay inside the region; solid blocks start at different addresses. */
  lemma BlocksDisjoint(h: Heap, i: nat, j: nat, x: nat)
    requires h.Valid() && i < j < |h.blocks|
    ensures !(h.blocks[i].start <= x < h.blocks[i].End() && h.blocks[j].start <= x < h.blocks[j].End())
    ensures h.blocks[i].start <= x < h.blocks[i].End() ==> h.base <= x < h.Limit()
    ensures h.Solid() && 0 < i ==> h.blocks[i].start < h.blocks[j].start
  {
    Ordered(h, i, j);
  }

  /** In a solid heap an address names at most one block. */
  lemma FindUnique(h: Heap, j: nat)
    requires h.Valid() && h.Solid() && 0 < j < |h.blocks|
    ensures Find(h, h.blocks[j].start) == Some(j)
  {
    FindInRange(h.blocks, 1, h.blocks[j].start);
    var r := Find(h, h.blocks[j].start);
    if r.Some? {
      if r.value < j { BlocksDisjoint(h, r.value, j, 0); }
    }
  }

  // ---- The search ----

  /** Next-fit is complete: the search fails exactly when no gap on the ring fits, and
      otherwise stops at the first fitting gap in cyclic order from the head. */
  lemma {:induction false} SearchExactly(h: Heap, i: nat, bytes: nat)
    requires h.Valid() && i < |h.blocks|
    ensures var r := Search(h, i, bytes);
            && (r.None? <==> forall j :: 0 <= j < |h.blocks| && h.Turn(j) >= h.Turn(i) ==> h.Gap(j) < bytes)
            && (r.Some? ==> r.value < |h.blocks| && h.Turn(r.value) >= h.Turn(i) && h.Gap(r.value) >= bytes
                            && forall j ::
                                 0 <= j < |h.blocks| && h.Turn(i) <= h.Turn(j) < h.Turn(r.value) ==> h.Gap(j) < bytes)
    decreases |h.blocks| - h.Turn(i)
  {
    if h.Gap(i) < bytes {
      forall j | 0 <= j < |h.blocks| && h.Turn(j) == h.Turn(i) ensures j == i {}
      if h.Next(i) != h.head { SearchExactly(h, h.Next(i), bytes); }
    }
  }

  /** The head itself is where cyclic order starts. */
  lemma MallocExactly(h: Heap, bytes: nat)
    requires h.Valid()
    ensures Malloc(h, bytes).1.None? <==> forall j :: 0 <= j < |h.blocks| ==> h.Gap(j) < bytes
    ensures Malloc(h, bytes).1.None? ==> Malloc(h, bytes).0 == h
    ensures Malloc(h, bytes).1.Some? ==>
              exists i :: 0 <= i < |h.blocks| && h.Gap(i) >= bytes
                          && (forall j :: 0 <= j < |h.blocks| && h.Turn(j) < h.Turn(i) ==> h.Gap(j) < bytes)
                          && Malloc(h, bytes) == (InsertAfter(h, i, bytes), Some(h.blocks[i].End()))
  {
    SearchExactly(h, h.head, bytes);
  }

  // ---- Invariants ----

  lemma InsertValid(h: Heap, i: nat, bytes: nat)
    requires h.Valid() && i < |h.blocks| && h.Gap(i) >= bytes
    ensures InsertAfter(h, i, bytes).Valid()
    ensures h.Solid() && bytes > 0 ==> InsertAfter(h, i, bytes).Solid()
  {
    var h' := InsertAfter(h, i, bytes);
    forall k | 0 <= k < |h'.blocks| ensures h'.Gap(k) >= 0 {
      if k < i { assert h'.Gap(k) == h.Gap(k); }
      else if k == i { assert h'.Gap(k) == 0; }
      else if k == i + 1 { assert h'.Gap(k) == h.Gap(i) - bytes; }
      else { assert h'.Gap(k) == h.Gap(k - 1); }
    }
  }

  lemma RemoveValid(h: Heap, j: nat)
    requires h.Valid() && 0 < j < |h.blocks|
    ensures RemoveAt(h, j).Valid()
    ensures h.Solid() ==> RemoveAt(h, j).Solid()
    ensures RemoveAt(h, j).Gap(j - 1) == h.Gap(j - 1) + h.blocks[j].size + h.Gap(j)
  {
    var h' := RemoveAt(h, j);
    forall k | 0 <= k < |h'.blocks| ensures h'.Gap(k) >= 0 {
      if k < j - 1 { assert h'.Gap(k) == h.Gap(k); }
      else if k == j - 1 { assert h.Gap(k) >= 0 && h.Gap(j) >= 0; }
      else { assert h'.Gap(k) == h.Gap(k + 1); }
    }
  }

  /** Allocation and release keep the layout valid, and solid for nonempty requests. */
  lemma MallocValid(h: Heap, bytes: nat)
    requires h.Valid()
    ensures Malloc(h, bytes).0.Valid()
    ensures h.Solid() && bytes > 0 ==> Malloc(h, bytes).0.Solid()
    ensures Malloc(h, bytes).0.base == h.base && Malloc(h, bytes).0.size == h.size
  {
    SearchExactly(h, h.head, bytes);
    var r := Search(h, h.head, bytes);
    if r.Some? { InsertValid(h, r.value, bytes); }
  }

  lemma FreeValid(h: Heap, address: nat)
    requires h.Valid()
    ensures Free(h, address).Valid()
    ensures h.Solid() ==> Free(h, address).Solid()
    ensures Free(h, address).base == h.base && Free(h, address).size == h.size
  {
    FindInRange(h.blocks, 1, address);
    var r := Find(h, address);
    if r.Some? { RemoveValid(h, r.value); }
  }

  /** A release takes out the one block at the address, and the next search starts at the block
      that followed it, or at the dummy; an address of no block changes nothing. */
  lemma FreeExactly(h: Heap, address: nat)
    requires h.Valid() && h.Solid()
    ensures (forall j :: 0 < j < |h.blocks| ==> h.blocks[j].start != address) ==> Free(h, address) == h
    ensures forall j :: 0 < j < |h.blocks| && h.blocks[j].start == address ==>
              var r := Free(h, address);
              && r.blocks == h.blocks[..j] + h.blocks[j + 1..]
              && r.head < |r.blocks| && r.blocks[r.head] == if j + 1 < |h.blocks| then h.blocks[j + 1] else h.blocks[0]
  {
    FindInRange(h.blocks, 1, address);
    forall j | 0 < j < |h.blocks| && h.blocks[j].start == address
      ensures Free(h, address) == RemoveAt(h, j)
    {
      FindUnique(h, j);
    }
    hide Heap.Valid, Heap.Solid;
    forall j | 0 < j < |h.blocks| && h.blocks[j].start == address
      ensures var r := Free(h, address);
              && r.blocks == h.blocks[..j] + h.blocks[j + 1..]
              && r.head < |r.blocks| && r.blocks[r.head] == if j + 1 < |h.blocks| then h.blocks[j + 1] else h.blocks[0]
    {
      assert Free(h, address) == RemoveAt(h, j);
      RemovedHead(h, j);
    }
    if forall j :: 0 < j < |h.blocks| ==> h.blocks[j].start != address {
      assert Find(h, address).None?;
    }
  }

  lemma RemovedHead(h: Heap, j: nat)
    requires 0 < j < |h.blocks|
    ensures var r := RemoveAt(h, j);
            r.head < |r.blocks| && r.blocks[r.head] == if j + 1 < |h.blocks| then h.blocks[j + 1] else h.blocks[0]
  {}

  // ---- Conservation ----

  /** Bytes in blocks, and bytes in gaps, from block i on. */
  function BytesFrom(h: Heap, i: nat): int
    requires i <= |h.blocks|
    decreases |h.blocks| - i
  {
    if i == |h.blocks| then 0 else h.blocks[i].size + BytesFrom(h, i + 1)
  }

  function GapsFrom(h: Heap, i: nat): int
    requires i <= |h.blocks|
    decreases |h.blocks| - i
  {
    if i == |h.blocks| then 0 else h.Gap(i) + GapsFrom(h, i + 1)
  }

  lemma {:induction false} BytesAndGaps(h: Heap, i: nat)
    requires i < |h.blocks|
    ensures BytesFrom(h, i) + GapsFrom(h, i) == h.Limit() - h.blocks[i].start
    decreases |h.blocks| - i
  {
    if i + 1 < |h.blocks| {
      BytesAndGaps(h, i + 1);
    } else {
      assert BytesFrom(h, i + 1) == 0 && GapsFrom(h, i + 1) == 0;
    }
  }

  /** Allocated bytes and free bytes always add up to the region. */
  lemma Conserved(h: Heap)
    requires h.Valid()
    ensures BytesFrom(h, 0) + GapsFrom(h, 0) == h.size
  {
    BytesAndGaps(h, 0);
  }
}

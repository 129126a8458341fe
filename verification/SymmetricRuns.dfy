/** Whole programs of allocation calls on the linked heap (src/memory/heap.c as shmem_malloc and
    shmem_free use it, src/shmem.c:200-225). */
module SymmetricRuns {
  import opened Wrappers
  import opened HeapTheorems
  import opened SymmetricHeap
  import HeapLayout

  ghost predicate NonEmpty(calls: seq<Call>)
  {
    forall call :: call in calls && call.Allocate? ==> call.bytes > 0
  }

  /** One call on a heap; a release names its block by offset. */
  method Perform(heap: Heap, call: Call) returns (offset: Option<int>)
    requires heap.Valid() && (call.Allocate? ==> call.bytes > 0)
    modifies heap, heap.nodes, heap.index, heap.index.buckets, heap.index.entries
    ensures heap.Valid() && old(heap.layout).Valid()
    ensures (heap.layout, offset) == Step(old(heap.layout), call)
    ensures fresh(heap.index.entries - old(heap.index.entries))
    ensures forall b :: b in heap.nodes && b !in old(heap.nodes) ==> fresh(b)
  {
    hide *;
    Unpacked(heap);
    StepIs(heap.layout, call);
    offset := None;
    match call
    case Allocate(bytes) =>
      var address := heap.Malloc(bytes);
      offset := if address.None? then None else Some(address.value - heap.base);
    case Release(at) =>
      heap.Free(heap.base + at);
  }

  lemma StepIs(h: HeapLayout.Heap, call: Call)
    requires h.Valid()
    ensures Step(h, call) ==
            match call
            case Allocate(bytes) =>
              var (h', address) := HeapLayout.Malloc(h, bytes);
              (h', if address.None? then None else Some(address.value - h.base))
            case Release(at) => (HeapLayout.Free(h, h.base + at), None)
  {}

  /** A program of calls, one after the other. */
  method Replay(heap: Heap, calls: seq<Call>) returns (offsets: seq<Option<int>>)
    requires heap.Valid() && NonEmpty(calls)
    modifies heap, heap.nodes, heap.index, heap.index.buckets, heap.index.entries
    ensures heap.Valid() && old(heap.layout).Valid()
    ensures (heap.layout, offsets) == Run(old(heap.layout), calls)
    ensures fresh(heap.index.entries - old(heap.index.entries))
    ensures forall b :: b in heap.nodes && b !in old(heap.nodes) ==> fresh(b)
    decreases |calls|
  {
    hide *;
    Unpacked(heap);
    RunIs(heap.layout, calls);
    if calls == [] {
      return [];
    }
    NonEmptyTail(calls);
    var first := Perform(heap, calls[0]);
    assert forall i :: 0 <= i < |heap.nodes| ==> heap.nodes[i] in old(heap.nodes) || fresh(heap.nodes[i]);
    assert forall e :: e in heap.index.entries ==> e in old(heap.index.entries) || fresh(e);
    var rest := Replay(heap, calls[1..]);
    offsets := [first] + rest;
  }

  lemma RunIs(h: HeapLayout.Heap, calls: seq<Call>)
    requires h.Valid()
    ensures calls == [] ==> Run(h, calls) == (h, [])
    ensures calls != [] ==>
              var (h1, offset) := Step(h, calls[0]);
              && h1.Valid()
              && Run(h, calls) == (Run(h1, calls[1..]).0, [offset] + Run(h1, calls[1..]).1)
  {
    if calls != [] { StepValid(h, calls[0]); }
  }

  lemma NonEmptyTail(calls: seq<Call>)
    requires NonEmpty(calls) && calls != []
    ensures (calls[0].Allocate? ==> calls[0].bytes > 0) && NonEmpty(calls[1..])
  {}

  /** Two PEs map their heaps at different addresses and make the same calls: every call returns
      the same offset, or NULL, on both, although the hash buckets of the blocks differ. */
  method SameProgram(region1: nat, region2: nat, size: nat, calls: seq<Call>)
    returns (offsets1: seq<Option<int>>, offsets2: seq<Option<int>>)
    requires NonEmpty(calls)
    ensures offsets1 == offsets2 && |offsets1| == |calls|
  {
    hide *;
    SymmetricHeaps(region1, region2, size, calls);
    RunLength(HeapLayout.Init(region1, size), calls);
    var heap1 := new Heap(region1, size);
    offsets1 := Replay(heap1, calls);
    var heap2 := new Heap(region2, size);
    offsets2 := Replay(heap2, calls);
  }

  lemma {:induction false} RunLength(h: HeapLayout.Heap, calls: seq<Call>)
    requires h.Valid()
    ensures |Run(h, calls).1| == |calls|
    decreases |calls|
  {
    if calls != [] {
      StepValid(h, calls[0]);
      RunLength(Step(h, calls[0]).0, calls[1..]);
    }
  }
}

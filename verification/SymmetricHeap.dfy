/** The next-fit heap on linked blocks and its predecessor index (src/memory/heap.c,
    src/memory/hashmap.c), proved against HeapLayout. The code departs from its own design
    in four places; the repairs made here are marked. Module AsWritten says what the code
    does without them. */
module SymmetricHeap {
  import opened Wrappers
  import opened BlockIndex
  import HeapLayout

  /** The blocks, each once, hang together by their next pointers. */
  ghost predicate Chained(nodes: seq<BlockNode>)
    reads nodes
  {
    && (forall i, j :: 0 <= i < j < |nodes| ==> nodes[i] != nodes[j])
    && (forall i {:trigger nodes[i].next} :: 0 <= i < |nodes| - 1 ==> nodes[i].next == nodes[i + 1])
    && (nodes != [] ==> nodes[|nodes| - 1].next == null)
  }

  /** The records hold the starts and sizes of a layout. */
  ghost predicate Records(nodes: seq<BlockNode>, blocks: seq<HeapLayout.Block>)
    reads nodes
  {
    && |nodes| == |blocks|
    && forall i :: 0 <= i < |nodes| ==> HeapLayout.Block(nodes[i].ptr, nodes[i].size) == blocks[i]
  }

  /** For every block but the dummy and block `except`, the index holds the true predecessor
      in the list, and it holds nothing else. */
  ghost predicate Predecessors(blocks: seq<HeapLayout.Block>, nodes: seq<BlockNode>, view: map<nat, BlockNode>,
                               except: nat)
    requires |nodes| == |blocks|
  {
    && (forall j :: 0 < j < |blocks| && j != except ==>
          blocks[j].start in view && view[blocks[j].start] == nodes[j - 1])
    && (forall k :: k in view ==> exists j :: 0 < j < |blocks| && j != except && blocks[j].start == k)
  }

  /** The hash of the index is the address modulo the number of buckets. */
  ghost predicate Hashed(index: HashMap)
  {
    index.nBuckets == HeapLayout.BUCKETS && forall k: nat :: index.bucketOf(k) == k % HeapLayout.BUCKETS
  }

  class Heap {
    const base: nat
    const size: nat
    var head: BlockNode
    var tail: BlockNode
    const index: HashMap
    ghost var nodes: seq<BlockNode>
    ghost var layout: HeapLayout.Heap

    /** The blocks, their order and the position of the head. */
    ghost predicate ListOk()
      reads this, nodes
    {
      && layout.base == base && layout.size == size && layout.Valid() && layout.Solid()
      && |nodes| == |layout.blocks| && tail == nodes[0] && head == nodes[layout.head]
    }

    ghost predicate Valid()
      reads this, nodes, index, index.buckets, index.entries
    {
      ListOk() && Hashed(index) && index.Valid() && Listed(layout.blocks, nodes, index.view)
    }

    /** An empty heap over a region: only the dummy block.
        Repair: the dummy's next pointer is set to NULL (heap.c:41-43 leaves it unset). */
    constructor (region: nat, size: nat)
      ensures Valid() && layout == HeapLayout.Init(region, size)
      ensures fresh(index) && fresh(index.buckets) && fresh(index.entries) && fresh(set b | b in nodes)
    {
      this.base, this.size := region, size;
      index := new HashMap(HeapLayout.BUCKETS);
      var dummy := new BlockNode(region, 0, null);
      head, tail := dummy, dummy;
      nodes, layout := [dummy], HeapLayout.Init(region, size);
    }

    /** The next-fit search: the block whose gap takes the request, or null. */
    method FindGap(bytes: nat) returns (cur: BlockNode?, ghost i: nat)
      requires Valid()
      ensures match HeapLayout.Search(layout, layout.head, bytes)
              case None => cur == null
              case Some(k) => k < |nodes| && cur == nodes[k]
      ensures cur != null ==> HeapLayout.Search(layout, layout.head, bytes) == Some(i)
    {
      hide HashMap.Valid, StartsDiffer, Predecessors;
      var block := head;
      i := layout.head;
      while (if block.next == null then base + size else block.next.ptr) - (block.ptr + block.size) < bytes
        invariant i < |nodes| && block == nodes[i]
        invariant HeapLayout.Search(layout, layout.head, bytes) == HeapLayout.Search(layout, i, bytes)
        decreases |nodes| - layout.Turn(i)
      {
        assert i + 1 < |nodes| ==> nodes[i].next == nodes[i + 1];
        block := if block.next == null then tail else block.next;
        i := layout.Next(i);
        if block == head {
          return null, i;
        }
      }
      cur := block;
    }

    /** Allocate with next-fit. A request of zero bytes would make addresses ambiguous.
        Repair: the entry of the next block is looked up by that block's address
        (heap.c:91 passes the address of its record). */
    method Malloc(bytes: nat) returns (r: Option<nat>)
      requires Valid() && bytes > 0
      modifies this, nodes, index, index.buckets, index.entries
      ensures Valid()
      ensures (layout, r) == HeapLayout.Malloc(old(layout), bytes)
      ensures fresh(index.entries - old(index.entries))
      ensures forall b :: b in nodes && b !in old(nodes) ==> fresh(b)
    {
      hide *;
      Unpacked(this);
      MallocIs(layout, bytes);
      ghost var i: nat;
      var cur;
      cur, i := FindGap(bytes);
      if cur == null {
        return None;
      }
      var block := Install(cur, i, bytes);
      r := Some(block.ptr);
    }

    /** A block of the given size behind the i-th. */
    method Install(cur: BlockNode, ghost i: nat, bytes: nat) returns (block: BlockNode)
      requires Valid() && bytes > 0
      requires i < |nodes| && cur == nodes[i] && layout.Gap(i) >= bytes
      modifies this, nodes, index, index.buckets, index.entries
      ensures Valid() && fresh(block) && forall b :: b in nodes ==> b in old(nodes) || b == block
      ensures layout == HeapLayout.InsertAfter(old(layout), i, bytes)
      ensures block.ptr == old(layout).blocks[i].End()
      ensures fresh(index.entries - old(index.entries))
    {
      hide *;
      Unpacked(this);
      ghost var after := HeapLayout.InsertAfter(layout, i, bytes);
      HeapLayout.InsertValid(layout, i, bytes);
      SolidStartsDiffer(after);
      block := new BlockNode(0, bytes, null);
      InsertedAt(layout, nodes, i, bytes, block);
      Link(index, layout, nodes, i, cur, block);
      nodes := Inserted(nodes, i, block);
      layout := after;
      head := block;
      AddressAt(layout.blocks, nodes, index.view, i + 1);
      Packed(this);
    }

    /** Look an address up in the index: the block in front of the one that starts there. */
    method PredecessorOf(ptr: nat) returns (block: BlockNode?)
      requires Valid()
      ensures match HeapLayout.Find(layout, ptr)
              case None => block == null
              case Some(j) => 0 < j < |nodes| && block == nodes[j - 1]
    {
      hide *;
      Unpacked(this);
      Opened(layout.blocks, nodes, index.view);
      LookupIsScan(layout, nodes, index.view, ptr);
      block := index.Get(ptr);
    }

    /** Release the block at an address; an address of no block is ignored.
        Repairs: the entry is found by the derived key (hashmap.c:126 compares the address of the
        stored predecessor), and the entry of the block behind the freed one is re-pointed to the
        block in front of it (heap.c:122-128 leaves it at the freed block). */
    method Free(ptr: nat)
      requires Valid()
      modifies this, nodes, index, index.buckets, index.entries
      ensures Valid()
      ensures layout == HeapLayout.Free(old(layout), ptr)
      ensures fresh(index.entries - old(index.entries)) && forall b :: b in nodes ==> b in old(nodes)
    {
      hide *;
      FreeIs(layout, ptr);
      var block := Unindex(ptr);
      if block == null {
        return;
      }
      DetachableSays(this, block, HeapLayout.Find(layout, ptr).value);
      TakeOut(block, HeapLayout.Find(layout, ptr).value);
    }

    /** Take the entry of an address out of the index. */
    method Unindex(ptr: nat) returns (block: BlockNode?)
      requires Valid()
      modifies index, index.buckets, index.entries
      ensures fresh(index.entries - old(index.entries))
      ensures block == null ==> HeapLayout.Find(layout, ptr).None? && Valid()
      ensures block != null ==>
                && HeapLayout.Find(layout, ptr).Some?
                && Detachable(block, HeapLayout.Find(layout, ptr).value)
      ensures index.entries <= old(index.entries)
    {
      hide *;
      Unpacked(this);
      Opened(layout.blocks, nodes, index.view);
      Lookup(layout, nodes, index.view, ptr);
      block := RemoveEntry(index, ptr, nodes, layout.blocks);
      if block == null {
        Closed(layout.blocks, nodes, index.view);
        Packed(this);
      } else {
        DetachableIs(this, block, HeapLayout.Find(layout, ptr).value);
      }
    }

    /** Block j is on the list and out of the index, and `block` is in front of it. */
    ghost predicate Detachable(block: BlockNode, j: nat)
      reads this, nodes, index, index.buckets, index.entries, index.view.Values,
            set k | k in index.view && index.view[k].next != null :: index.view[k].next
    {
      && layout.base == base && layout.size == size && layout.Valid() && layout.Solid()
      && |nodes| == |layout.blocks| && 0 < j < |nodes| && block == nodes[j - 1] && tail == nodes[0]
      && index.Valid() && Keyed(index.view) && Records(nodes, layout.blocks) && Chained(nodes)
      && StartsDiffer(layout.blocks) && Predecessors(layout.blocks, nodes, index.view, j) && Hashed(index)
    }

    /** The block behind `block` leaves the list; the search goes on from its successor. */
    method TakeOut(block: BlockNode, ghost j: nat)
      requires layout.base == base && layout.size == size && layout.Valid() && layout.Solid()
      requires |nodes| == |layout.blocks| && 0 < j < |nodes| && block == nodes[j - 1] && tail == nodes[0]
      requires index.Valid() && Keyed(index.view) && Records(nodes, layout.blocks) && Chained(nodes)
      requires StartsDiffer(layout.blocks) && Predecessors(layout.blocks, nodes, index.view, j) && Hashed(index)
      modifies this, nodes, index, index.buckets, index.entries
      ensures Valid() && layout == HeapLayout.RemoveAt(old(layout), j)
      ensures fresh(index.entries - old(index.entries)) && forall b :: b in nodes ==> b in old(nodes)
    {
      hide *;
      NextIs(nodes, layout.blocks, j - 1);
      NextIs(nodes, layout.blocks, j);
      HeapLayout.RemoveValid(layout, j);
      SolidStartsDiffer(HeapLayout.RemoveAt(layout, j));
      RemovedAt(layout, nodes, j);
      var freed := block.next;
      head := if freed.next == null then tail else freed.next;
      Detach(index, layout, nodes, j, block, freed);
      nodes := Skip(nodes, j);
      layout := HeapLayout.RemoveAt(layout, j);
      Packed(this);
    }
  }

  lemma MallocIs(h: HeapLayout.Heap, bytes: nat)
    requires h.head < |h.blocks|
    ensures HeapLayout.Malloc(h, bytes) ==
            match HeapLayout.Search(h, h.head, bytes)
            case None => (h, None)
            case Some(i) => (HeapLayout.InsertAfter(h, i, bytes), Some(h.blocks[i].End()))
  {}

  lemma Unpacked(heap: Heap)
    requires heap.Valid()
    ensures Hashed(heap.index) && heap.index.Valid() && Listed(heap.layout.blocks, heap.nodes, heap.index.view)
    ensures heap.layout.base == heap.base && heap.layout.size == heap.size && heap.layout.Valid() && heap.layout.Solid()
    ensures |heap.nodes| == |heap.layout.blocks| > 0 && heap.layout.head < |heap.nodes|
    ensures heap.tail == heap.nodes[0] && heap.head == heap.nodes[heap.layout.head]
  {}

  lemma DetachableIs(heap: Heap, block: BlockNode, j: nat)
    requires heap.layout.base == heap.base && heap.layout.size == heap.size && heap.layout.Valid()
             && heap.layout.Solid()
    requires |heap.nodes| == |heap.layout.blocks| && 0 < j < |heap.nodes| && block == heap.nodes[j - 1]
             && heap.tail == heap.nodes[0]
    requires heap.index.Valid() && Keyed(heap.index.view) && Records(heap.nodes, heap.layout.blocks)
             && Chained(heap.nodes)
    requires StartsDiffer(heap.layout.blocks) && Predecessors(heap.layout.blocks, heap.nodes, heap.index.view, j)
    requires Hashed(heap.index)
    ensures heap.Detachable(block, j)
  {}

  lemma DetachableSays(heap: Heap, block: BlockNode, j: nat)
    requires heap.Detachable(block, j)
    ensures heap.layout.base == heap.base && heap.layout.size == heap.size && heap.layout.Valid() && heap.layout.Solid()
    ensures |heap.nodes| == |heap.layout.blocks| && 0 < j < |heap.nodes| && block == heap.nodes[j - 1]
            && heap.tail == heap.nodes[0]
    ensures heap.index.Valid() && Keyed(heap.index.view) && Records(heap.nodes, heap.layout.blocks)
            && Chained(heap.nodes)
    ensures StartsDiffer(heap.layout.blocks) && Predecessors(heap.layout.blocks, heap.nodes, heap.index.view, j)
    ensures Hashed(heap.index)
  {}

  lemma Packed(heap: Heap)
    requires Hashed(heap.index) && heap.index.Valid() && Listed(heap.layout.blocks, heap.nodes, heap.index.view)
    requires heap.layout.base == heap.base && heap.layout.size == heap.size && heap.layout.Valid()
             && heap.layout.Solid()
    requires |heap.nodes| == |heap.layout.blocks| > 0 && heap.layout.head < |heap.nodes|
    requires heap.tail == heap.nodes[0] && heap.head == heap.nodes[heap.layout.head]
    ensures heap.Valid()
  {}

  lemma FreeIs(h: HeapLayout.Heap, ptr: nat)
    ensures HeapLayout.Find(h, ptr).Some? ==> 0 < HeapLayout.Find(h, ptr).value < |h.blocks|
    ensures HeapLayout.Free(h, ptr) ==
            match HeapLayout.Find(h, ptr)
            case None => h
            case Some(j) => if 0 < j < |h.blocks| then HeapLayout.RemoveAt(h, j) else h
  {
    HeapLayout.FindInRange(h.blocks, 1, ptr);
  }

  /** A lookup in the index answers like a scan of the list: the block in front of the one that
      starts at the address. */
  lemma LookupIsScan(h: HeapLayout.Heap, nodes: seq<BlockNode>, view: map<nat, BlockNode>, ptr: nat)
    requires h.Valid() && h.Solid() && |nodes| == |h.blocks| && Predecessors(h.blocks, nodes, view, 0)
    ensures match HeapLayout.Find(h, ptr)
            case None => ptr !in view
            case Some(j) => 0 < j < |nodes| && ptr in view && view[ptr] == nodes[j - 1]
  {
    HeapLayout.FindInRange(h.blocks, 1, ptr);
  }

  /** The key the code reads off a chain node. */
  ghost predicate DerivesKey(e: Entry, key: nat)
    reads e, e.value, if e.value.next != null then {e.value.next} else {}
  {
    e.value.next != null && e.value.next.ptr == key
  }

  /** For every block but the dummy there is exactly one chain node whose derived key is the
      block's address; it sits in the bucket of that address, the address modulo 1023, and holds
      the block in front. */
  lemma OneNodePerBlock(heap: Heap, j: nat)
    requires heap.Valid() && 0 < j < |heap.nodes|
    ensures var index, p := heap.index, heap.nodes[j].ptr;
            && |index.chains| == index.buckets.Length == 1023
            && (forall b :: 0 <= b < 1023 ==> Linked(index.chains[b], index.buckets[b]))
            && p in index.at && index.at[p].value == heap.nodes[j - 1]
            && (forall b, e :: 0 <= b < 1023 && e in index.chains[b] && DerivesKey(e, p) ==>
                  e == index.at[p] && b == p % 1023)
            && index.at[p] in index.chains[p % 1023] && DerivesKey(index.at[p], p)
  {
    var index, p := heap.index, heap.nodes[j].ptr;
    Opened(heap.layout.blocks, heap.nodes, index.view);
    assert Precedes(heap.layout.blocks, heap.nodes, index.view, j);
    assert index.bucketOf(p) == p % 1023;
    assert index.at[p] in index.entries;
    forall b, e | 0 <= b < 1023 && e in index.chains[b] && DerivesKey(e, p)
      ensures e == index.at[p] && b == p % 1023
    {
      assert Members(index.bucketOf, index.chains[b], index.entries, b);
      assert e.key in index.view && e.value == index.view[e.key];
      assert index.bucketOf(e.key) == e.key % 1023;
    }
  }

  /** What the index still says when the entry of an address is taken out. */
  lemma Lookup(h: HeapLayout.Heap, nodes: seq<BlockNode>, view: map<nat, BlockNode>, ptr: nat)
    requires h.Valid() && h.Solid() && |nodes| == |h.blocks|
    requires StartsDiffer(h.blocks) && Predecessors(h.blocks, nodes, view, 0)
    ensures match HeapLayout.Find(h, ptr)
            case None => ptr !in view && view - {ptr} == view
            case Some(j) =>
              && 0 < j < |nodes| && ptr in view && view[ptr] == nodes[j - 1]
              && Predecessors(h.blocks, nodes, view - {ptr}, j)
  {
    LookupIsScan(h, nodes, view, ptr);
    HeapLayout.FindInRange(h.blocks, 1, ptr);
    var found := HeapLayout.Find(h, ptr);
    if found.Some? { EntryGone(h.blocks, nodes, view, found.value, ptr); }
  }

  /** A removal from the index leaves the list of records alone. */
  method RemoveEntry(index: HashMap, key: nat, ghost nodes: seq<BlockNode>, ghost blocks: seq<HeapLayout.Block>)
    returns (value: BlockNode?)
    requires index.Valid() && Keyed(index.view) && Records(nodes, blocks) && Chained(nodes)
    modifies index, index.buckets, index.entries
    ensures index.Valid() && index.view == old(index.view) - {key} && Keyed(index.view)
    ensures value == if key in old(index.view) then old(index.view)[key] else null
    ensures Records(nodes, blocks) && Chained(nodes)
    ensures index.entries <= old(index.entries)
  {
    hide Keyed;
    KeyedWithout(index.view, key);
    value := index.Remove(key);
  }

  lemma KeyedWithout(view: map<nat, BlockNode>, key: nat)
    requires Keyed(view)
    ensures Keyed(view - {key})
  {}

  lemma EntryGone(blocks: seq<HeapLayout.Block>, nodes: seq<BlockNode>, view: map<nat, BlockNode>, j: nat, key: nat)
    requires |nodes| == |blocks| && 0 < j < |nodes| && key == blocks[j].start
    requires StartsDiffer(blocks) && Predecessors(blocks, nodes, view, 0)
    ensures Predecessors(blocks, nodes, view - {key}, j)
  {
    forall i | 0 < i < |blocks| && i != j ensures blocks[i].start in view - {key} {}
  }

  /** The freed block taken out: the entry behind it re-pointed, and the list bridged. */
  method Detach(index: HashMap, ghost h: HeapLayout.Heap, ghost nodes: seq<BlockNode>, ghost j: nat, block: BlockNode,
                freed: BlockNode)
    requires index.Valid() && Keyed(index.view) && Records(nodes, h.blocks) && Chained(nodes)
    requires |nodes| == |h.blocks| && 0 < j < |nodes| && block == nodes[j - 1] && freed == nodes[j]
    requires Predecessors(h.blocks, nodes, index.view, j)
    requires StartsDiffer(h.blocks) && StartsDiffer(HeapLayout.RemoveAt(h, j).blocks)
    modifies index, index.buckets, index.entries, block
    ensures index.Valid() && Listed(HeapLayout.RemoveAt(h, j).blocks, Skip(nodes, j), index.view)
    ensures fresh(index.entries - old(index.entries))
  {
    hide *;
    Skimmed(h, nodes, index.view, j);
    Retarget(index, h, nodes, j, freed, block);
    Bypass(nodes, h, j, block, freed);
    Closed(HeapLayout.RemoveAt(h, j).blocks, Skip(nodes, j), index.view);
  }

  method Bypass(ghost nodes: seq<BlockNode>, ghost h: HeapLayout.Heap, ghost j: nat, block: BlockNode, freed: BlockNode)
    requires Chained(nodes) && Records(nodes, h.blocks)
    requires 0 < j < |nodes| && block == nodes[j - 1] && freed == nodes[j]
    modifies block
    ensures Chained(Skip(nodes, j)) && Records(Skip(nodes, j), HeapLayout.RemoveAt(h, j).blocks)
  {
    block.next := freed.next;
    ghost var rest := Skip(nodes, j);
    forall k {:trigger rest[k].next} | 0 <= k < |rest| - 1 ensures rest[k].next == rest[k + 1] {
      if k < j - 1 { assert nodes[k].next == nodes[k + 1]; }
      if k == j - 1 { assert nodes[j].next == nodes[j + 1]; }
      if k > j - 1 { assert rest[k] == nodes[k + 1] && nodes[k + 1].next == nodes[k + 2]; }
    }
  }

  /** Without the freed block every other block keeps or gets its true predecessor. */
  lemma Skimmed(h: HeapLayout.Heap, nodes: seq<BlockNode>, view: map<nat, BlockNode>, j: nat)
    requires |nodes| == |h.blocks| && 0 < j < |nodes|
    requires StartsDiffer(h.blocks) && Predecessors(h.blocks, nodes, view, j)
    ensures Predecessors(HeapLayout.RemoveAt(h, j).blocks, Skip(nodes, j), Repointed(h, view, j, nodes[j - 1]), 0)
  {
    var blocks', nodes' := HeapLayout.RemoveAt(h, j).blocks, Skip(nodes, j);
    var view' := Repointed(h, view, j, nodes[j - 1]);
    hide StartsDiffer, Predecessors, HeapLayout.RemoveAt, Skip, Repointed, IsStart, Precedes;
    RemovedAt(h, nodes, j);
    forall i | 0 < i < |blocks'| && i != 0 ensures Precedes(blocks', nodes', view', i) {
      SkimmedAt(h, nodes, view, j, i);
    }
    forall k | k in view' ensures IsStart(blocks', 0, k) {
      SkimmedKey(h, nodes, view, j, k);
    }
    PredecessorsAre(blocks', nodes', view', 0);
  }

  lemma SkimmedAt(h: HeapLayout.Heap, nodes: seq<BlockNode>, view: map<nat, BlockNode>, j: nat, i: nat)
    requires |nodes| == |h.blocks| && 0 < j < |nodes| && 0 < i < |nodes| - 1
    requires StartsDiffer(h.blocks) && Predecessors(h.blocks, nodes, view, j)
    ensures |HeapLayout.RemoveAt(h, j).blocks| == |Skip(nodes, j)| == |nodes| - 1
    ensures Precedes(HeapLayout.RemoveAt(h, j).blocks, Skip(nodes, j), Repointed(h, view, j, nodes[j - 1]), i)
  {
    var blocks' := HeapLayout.RemoveAt(h, j).blocks;
    var k := if i < j then i else i + 1;
    assert blocks'[i] == h.blocks[k] && h.blocks[k].start in view && view[h.blocks[k].start] == nodes[k - 1];
    assert k != j + 1 && j + 1 < |nodes| ==> h.blocks[k].start != h.blocks[j + 1].start;
  }

  lemma SkimmedKey(h: HeapLayout.Heap, nodes: seq<BlockNode>, view: map<nat, BlockNode>, j: nat, key: nat)
    requires |nodes| == |h.blocks| && 0 < j < |nodes| && Predecessors(h.blocks, nodes, view, j)
    requires key in Repointed(h, view, j, nodes[j - 1])
    ensures IsStart(HeapLayout.RemoveAt(h, j).blocks, 0, key)
  {
    var blocks' := HeapLayout.RemoveAt(h, j).blocks;
    assert key in view;
    var i :| 0 < i < |nodes| && i != j && h.blocks[i].start == key;
    assert blocks'[if i < j then i else i - 1].start == key;
  }

  lemma Closed(blocks: seq<HeapLayout.Block>, nodes: seq<BlockNode>, view: map<nat, BlockNode>)
    requires Records(nodes, blocks) && Chained(nodes) && StartsDiffer(blocks)
    requires |nodes| == |blocks| && Predecessors(blocks, nodes, view, 0)
    ensures Listed(blocks, nodes, view)
  {}

  lemma RemovedAt(h: HeapLayout.Heap, nodes: seq<BlockNode>, j: nat)
    requires 0 < j < |nodes| == |h.blocks|
    ensures var blocks', nodes' := HeapLayout.RemoveAt(h, j).blocks, Skip(nodes, j);
            && HeapLayout.RemoveAt(h, j) == h.(blocks := blocks', head := if j + 1 == |nodes| then 0 else j)
            && |nodes'| == |blocks'| == |nodes| - 1 && nodes'[0] == nodes[0]
            && (j + 1 < |nodes| ==> nodes'[j] == nodes[j + 1])
            && forall b :: b in nodes' ==> b in nodes
  {}

  /** Splicing an element in after the i-th. */
  ghost function Inserted<T>(list: seq<T>, i: nat, x: T): seq<T>
    requires i < |list|
  {
    list[..i + 1] + [x] + list[i + 1..]
  }

  /** The two pointer writes that link a block in behind the i-th. */
  method SpliceIn(ghost nodes: seq<BlockNode>, ghost layout: HeapLayout.Heap, ghost i: nat, cur: BlockNode,
                  block: BlockNode)
    requires Chained(nodes) && Records(nodes, layout.blocks)
    requires i < |nodes| && cur == nodes[i] && block !in nodes
    modifies cur, block
    ensures block.ptr == layout.blocks[i].End()
    ensures Chained(Inserted(nodes, i, block))
    ensures Records(Inserted(nodes, i, block), HeapLayout.InsertAfter(layout, i, old(block.size)).blocks)
  {
    NextIs(nodes, layout.blocks, i);
    block.ptr := cur.ptr + cur.size;
    block.next := cur.next;
    cur.next := block;
    SplicedChain(nodes, i, block);
    SplicedRecords(nodes, layout, i, block);
  }

  lemma SplicedChain(nodes: seq<BlockNode>, i: nat, block: BlockNode)
    requires i < |nodes| && block !in nodes && forall j, k :: 0 <= j < k < |nodes| ==> nodes[j] != nodes[k]
    requires forall k {:trigger nodes[k].next} :: 0 <= k < |nodes| && k != i ==>
               nodes[k].next == if k + 1 < |nodes| then nodes[k + 1] else null
    requires nodes[i].next == block && block.next == if i + 1 < |nodes| then nodes[i + 1] else null
    ensures Chained(Inserted(nodes, i, block))
  {
    var longer := Inserted(nodes, i, block);
    forall k {:trigger longer[k].next} | 0 <= k < |longer| - 1 ensures longer[k].next == longer[k + 1] {
      if k < i { assert longer[k] == nodes[k] && longer[k + 1] == nodes[k + 1]; }
      if k > i + 1 { assert longer[k] == nodes[k - 1] && longer[k + 1] == nodes[k]; }
    }
    forall j, k | 0 <= j < k < |longer| ensures longer[j] != longer[k] {
      if j != i + 1 { assert longer[j] == nodes[if j <= i then j else j - 1]; }
      if k != i + 1 { assert longer[k] == nodes[if k <= i then k else k - 1]; }
    }
    var last := |nodes| - 1;
    assert longer[|longer| - 1] == if i == last then block else nodes[last];
  }

  lemma SplicedRecords(nodes: seq<BlockNode>, layout: HeapLayout.Heap, i: nat, block: BlockNode)
    requires Records(nodes, layout.blocks) && i < |nodes| && block.ptr == layout.blocks[i].End()
    ensures Records(Inserted(nodes, i, block), HeapLayout.InsertAfter(layout, i, block.size).blocks)
  {
    var longer, blocks := Inserted(nodes, i, block), HeapLayout.InsertAfter(layout, i, block.size).blocks;
    forall k | 0 <= k < |longer| ensures HeapLayout.Block(longer[k].ptr, longer[k].size) == blocks[k] {
      if k != i + 1 {
        var m := if k <= i then k else k - 1;
        assert longer[k] == nodes[m] && blocks[k] == layout.blocks[m];
      }
    }
  }

  /** The splice and the two index updates around it. */
  method Link(index: HashMap, ghost h: HeapLayout.Heap, ghost nodes: seq<BlockNode>, ghost i: nat, cur: BlockNode,
              block: BlockNode)
    requires index.Valid() && Listed(h.blocks, nodes, index.view)
    requires i < |nodes| && cur == nodes[i] && block !in nodes
    requires StartsDiffer(HeapLayout.InsertAfter(h, i, block.size).blocks)
    modifies index, index.buckets, index.entries, cur, block
    ensures index.Valid()
            && Listed(HeapLayout.InsertAfter(h, i, old(block.size)).blocks, Inserted(nodes, i, block), index.view)
    ensures fresh(index.entries - old(index.entries))
  {
    hide *;
    Opened(h.blocks, nodes, index.view);
    ghost var bytes := block.size;
    Spliced(h, nodes, index.view, i, bytes, block);
    Retarget(index, h, nodes, i, cur, block);
    SpliceIn(nodes, h, i, cur, block);
    InsertedAt(h, nodes, i, bytes, block);
    Enter(index, HeapLayout.InsertAfter(h, i, bytes).blocks, Inserted(nodes, i, block), i + 1, block.ptr, cur);
  }

  /** The entry of the next block, if there is one, re-pointed. */
  method Retarget(index: HashMap, ghost h: HeapLayout.Heap, ghost nodes: seq<BlockNode>, ghost i: nat, cur: BlockNode,
                  block: BlockNode)
    requires index.Valid() && Keyed(index.view) && Records(nodes, h.blocks) && Chained(nodes)
    requires i < |nodes| == |h.blocks| && cur == nodes[i]
    modifies index, index.buckets, index.entries
    ensures index.Valid() && Records(nodes, h.blocks) && Chained(nodes)
    ensures index.view == Repointed(h, old(index.view), i, block)
    ensures fresh(index.entries - old(index.entries))
  {
    hide *;
    NextIs(nodes, h.blocks, i);
    RepointedIs(h, index.view, i, block);
    if cur.next != null {
      SetEntry(index, cur.next.ptr, block, nodes, h.blocks);
    }
  }

  /** An index update leaves the list of records alone. */
  method SetEntry(index: HashMap, key: nat, value: BlockNode, ghost nodes: seq<BlockNode>,
                  ghost blocks: seq<HeapLayout.Block>)
    requires index.Valid() && Keyed(index.view) && Records(nodes, blocks) && Chained(nodes)
    modifies index, index.buckets, index.entries
    ensures index.Valid() && index.view == old(index.view)[key := value]
    ensures Records(nodes, blocks) && Chained(nodes)
    ensures fresh(index.entries - old(index.entries))
  {
    hide Keyed;
    index.Set(key, value);
  }

  /** The entry of the new block. */
  method Enter(index: HashMap, ghost blocks: seq<HeapLayout.Block>, ghost nodes: seq<BlockNode>, ghost j: nat,
               key: nat, cur: BlockNode)
    requires |nodes| == |blocks| && Records(nodes, blocks) && Chained(nodes) && StartsDiffer(blocks)
    requires 0 < j < |nodes| && key == blocks[j].start && cur == nodes[j - 1]
    requires index.Valid() && Predecessors(blocks, nodes, index.view, j)
    modifies index, index.buckets, index.entries
    ensures index.Valid() && Listed(blocks, nodes, index.view)
    ensures fresh(index.entries - old(index.entries))
  {
    hide Predecessors, StartsDiffer, Keyed;
    KeyedFromList(blocks, nodes, index.view, j);
    Entered(blocks, nodes, index.view, j);
    index.Set(key, cur);
  }

  /** A list of records with its layout and its index. */
  ghost predicate Listed(blocks: seq<HeapLayout.Block>, nodes: seq<BlockNode>, view: map<nat, BlockNode>)
    reads nodes
  {
    Records(nodes, blocks) && Chained(nodes) && StartsDiffer(blocks) && Predecessors(blocks, nodes, view, 0)
  }

  lemma Opened(blocks: seq<HeapLayout.Block>, nodes: seq<BlockNode>, view: map<nat, BlockNode>)
    requires Listed(blocks, nodes, view)
    ensures |nodes| == |blocks| && Records(nodes, blocks) && Chained(nodes) && StartsDiffer(blocks)
    ensures Predecessors(blocks, nodes, view, 0) && Keyed(view)
  {
    KeyedFromList(blocks, nodes, view, 0);
  }

  lemma RepointedIs(h: HeapLayout.Heap, view: map<nat, BlockNode>, i: nat, block: BlockNode)
    requires i < |h.blocks|
    ensures Repointed(h, view, i, block) == if i + 1 < |h.blocks| then view[h.blocks[i + 1].start := block] else view
  {}

  lemma InsertedAt(h: HeapLayout.Heap, nodes: seq<BlockNode>, i: nat, bytes: nat, block: BlockNode)
    requires i < |nodes| == |h.blocks|
    ensures var blocks', nodes' := HeapLayout.InsertAfter(h, i, bytes).blocks, Inserted(nodes, i, block);
            && HeapLayout.InsertAfter(h, i, bytes) == h.(blocks := blocks', head := i + 1)
            && |nodes'| == |blocks'| == |nodes| + 1 && nodes'[0] == nodes[0]
            && nodes'[i] == nodes[i] && nodes'[i + 1] == block && blocks'[i + 1].start == h.blocks[i].End()
            && forall b :: b in nodes' ==> b in nodes || b == block
  {}

  lemma AddressAt(blocks: seq<HeapLayout.Block>, nodes: seq<BlockNode>, view: map<nat, BlockNode>, j: nat)
    requires Listed(blocks, nodes, view) && j < |blocks|
    ensures |nodes| == |blocks| && nodes[j].ptr == blocks[j].start
  {}

  lemma NextIs(nodes: seq<BlockNode>, blocks: seq<HeapLayout.Block>, i: nat)
    requires Chained(nodes) && Records(nodes, blocks) && i < |nodes|
    ensures nodes[i].next == if i + 1 < |nodes| then nodes[i + 1] else null
    ensures i + 1 < |nodes| ==> nodes[i + 1].ptr == blocks[i + 1].start
    ensures nodes[i].ptr + nodes[i].size == blocks[i].End()
  {}

  /** Block j has its true predecessor in the index. */
  ghost predicate Precedes(blocks: seq<HeapLayout.Block>, nodes: seq<BlockNode>, view: map<nat, BlockNode>, j: nat)
    requires 0 < j < |nodes| == |blocks|
  {
    blocks[j].start in view && view[blocks[j].start] == nodes[j - 1]
  }

  ghost predicate IsStart(blocks: seq<HeapLayout.Block>, except: nat, key: nat)
  {
    exists j :: 0 < j < |blocks| && j != except && blocks[j].start == key
  }

  /** Re-pointing the entry of the next block to a new block indexes the list with the new
      block spliced in, except for the new block itself. */
  lemma Spliced(h: HeapLayout.Heap, nodes: seq<BlockNode>, view: map<nat, BlockNode>, i: nat, bytes: nat,
                block: BlockNode)
    requires |nodes| == |h.blocks| && i < |nodes|
    requires StartsDiffer(h.blocks) && Predecessors(h.blocks, nodes, view, 0)
    ensures Predecessors(HeapLayout.InsertAfter(h, i, bytes).blocks, Inserted(nodes, i, block),
                         Repointed(h, view, i, block), i + 1)
  {
    var blocks', nodes' := HeapLayout.InsertAfter(h, i, bytes).blocks, Inserted(nodes, i, block);
    var view' := Repointed(h, view, i, block);
    hide StartsDiffer, Predecessors, HeapLayout.InsertAfter, Inserted, Repointed, IsStart, Precedes;
    InsertedLengths(h, nodes, i, bytes, block);
    forall j | 0 < j < |blocks'| && j != i + 1 ensures Precedes(blocks', nodes', view', j) {
      SplicedAt(h, nodes, view, i, bytes, block, j);
    }
    forall k | k in view' ensures IsStart(blocks', i + 1, k) {
      SplicedKey(h, nodes, view, i, bytes, block, k);
    }
    PredecessorsAre(blocks', nodes', view', i + 1);
  }

  lemma InsertedLengths(h: HeapLayout.Heap, nodes: seq<BlockNode>, i: nat, bytes: nat, block: BlockNode)
    requires i < |nodes| == |h.blocks|
    ensures |HeapLayout.InsertAfter(h, i, bytes).blocks| == |Inserted(nodes, i, block)| == |nodes| + 1
  {}

  lemma PredecessorsAre(blocks: seq<HeapLayout.Block>, nodes: seq<BlockNode>, view: map<nat, BlockNode>, except: nat)
    requires |nodes| == |blocks|
    requires forall j :: 0 < j < |blocks| && j != except ==> Precedes(blocks, nodes, view, j)
    requires forall k :: k in view ==> IsStart(blocks, except, k)
    ensures Predecessors(blocks, nodes, view, except)
  {
    forall j | 0 < j < |blocks| && j != except ensures blocks[j].start in view
      && view[blocks[j].start] == nodes[j - 1] {
      assert Precedes(blocks, nodes, view, j);
    }
    forall k | k in view ensures exists j :: 0 < j < |blocks| && j != except && blocks[j].start == k {
      assert IsStart(blocks, except, k);
    }
  }

  lemma SplicedAt(h: HeapLayout.Heap, nodes: seq<BlockNode>, view: map<nat, BlockNode>, i: nat, bytes: nat,
                  block: BlockNode, j: nat)
    requires |nodes| == |h.blocks| && i < |nodes| && 0 < j < |nodes| + 1 && j != i + 1
    requires StartsDiffer(h.blocks) && Predecessors(h.blocks, nodes, view, 0)
    ensures |HeapLayout.InsertAfter(h, i, bytes).blocks| == |Inserted(nodes, i, block)| == |nodes| + 1
    ensures Precedes(HeapLayout.InsertAfter(h, i, bytes).blocks, Inserted(nodes, i, block),
                     Repointed(h, view, i, block), j)
  {
    var blocks' := HeapLayout.InsertAfter(h, i, bytes).blocks;
    var k := if j <= i then j else j - 1;
    assert blocks'[j] == h.blocks[k] && h.blocks[k].start in view && view[h.blocks[k].start] == nodes[k - 1];
    assert k != i + 1 && i + 1 < |nodes| ==> h.blocks[k].start != h.blocks[i + 1].start;
  }

  lemma SplicedKey(h: HeapLayout.Heap, nodes: seq<BlockNode>, view: map<nat, BlockNode>, i: nat, bytes: nat,
                   block: BlockNode, key: nat)
    requires |nodes| == |h.blocks| && i < |nodes| && Predecessors(h.blocks, nodes, view, 0)
    requires key in Repointed(h, view, i, block)
    ensures IsStart(HeapLayout.InsertAfter(h, i, bytes).blocks, i + 1, key)
  {
    var blocks' := HeapLayout.InsertAfter(h, i, bytes).blocks;
    assert key in view;
    var j :| 0 < j < |nodes| && h.blocks[j].start == key;
    assert blocks'[if j <= i then j else j + 1].start == key;
  }

  /** Entering the one missing block completes the index. */
  lemma Entered(blocks: seq<HeapLayout.Block>, nodes: seq<BlockNode>, view: map<nat, BlockNode>, j: nat)
    requires |nodes| == |blocks| && 0 < j < |nodes|
    requires StartsDiffer(blocks) && Predecessors(blocks, nodes, view, j)
    ensures Predecessors(blocks, nodes, view[blocks[j].start := nodes[j - 1]], 0)
  {}

  ghost function Repointed(h: HeapLayout.Heap, view: map<nat, BlockNode>, i: nat, block: BlockNode): map<nat, BlockNode>
    requires i < |h.blocks|
  {
    if i + 1 < |h.blocks| then view[h.blocks[i + 1].start := block] else view
  }

  ghost predicate StartsDiffer(blocks: seq<HeapLayout.Block>)
  {
    forall i, j :: 0 < i < j < |blocks| ==> blocks[i].start != blocks[j].start
  }

  lemma SolidStartsDiffer(h: HeapLayout.Heap)
    requires h.Valid() && h.Solid()
    ensures StartsDiffer(h.blocks)
  {
    forall i, j | 0 < i < j < |h.blocks| ensures h.blocks[i].start != h.blocks[j].start {
      HeapLayout.BlocksDisjoint(h, i, j, 0);
    }
  }

  /** The keys the table derives from its values are the addresses they were entered for. */
  lemma KeyedFromList(blocks: seq<HeapLayout.Block>, nodes: seq<BlockNode>, view: map<nat, BlockNode>, except: nat)
    requires Chained(nodes) && Records(nodes, blocks) && Predecessors(blocks, nodes, view, except)
    ensures Keyed(view)
  {
    forall k | k in view ensures view[k].next != null && view[k].next.ptr == k {
      var j :| 0 < j < |nodes| && j != except && blocks[j].start == k;
      assert nodes[j - 1].next == nodes[j];
    }
  }
}

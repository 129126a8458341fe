/** Release as the text of the code has it: hashmap_remove compares the address of the stored
    predecessor, where lookup and update compare the address of the block behind it
    (src/memory/hashmap.c:126 against 65 and 90). After a program of allocations this module says
    exactly when releasing a block releases that block. The dummy's next pointer is taken to be
    NULL, as the design has it (heap.c:41-43 leaves it unset). */
module AsWritten {
  import opened Wrappers
  import opened HeapLayout
  import opened HeapTheorems

  /** A heap and its index. A chain holds the positions of the stored predecessors, newest first. */
  datatype Written = Written(h: Heap, chains: seq<seq<nat>>)

  ghost predicate Shaped(w: Written)
  {
    && |w.chains| == BUCKETS
    && forall b, i :: 0 <= b < BUCKETS && 0 <= i < |w.chains[b]| ==> w.chains[b][i] + 1 < |w.h.blocks|
  }

  /** The walk of hashmap_set: the first node whose value is in front of the key. */
  function Derived(chain: seq<nat>, blocks: seq<Block>, key: nat): (r: Option<nat>)
    requires forall i :: 0 <= i < |chain| ==> chain[i] + 1 < |blocks|
    ensures r.Some? ==> r.value < |chain| && blocks[chain[r.value] + 1].start == key
  {
    if chain == [] then None
    else if blocks[chain[0] + 1].start == key then Some(0)
    else
      var r := Derived(chain[1..], blocks, key);
      if r.None? then None else Some(r.value + 1)
  }

  /** The walk of hashmap_remove: the first node whose value starts at the key. */
  function Stored(chain: seq<nat>, blocks: seq<Block>, key: nat): (r: Option<nat>)
    requires forall i :: 0 <= i < |chain| ==> chain[i] + 1 < |blocks|
    ensures r.Some? ==> r.value in chain && r.value + 1 < |blocks| && blocks[r.value].start == key
    ensures r.None? ==> forall v :: v in chain ==> blocks[v].start != key
  {
    if chain == [] then None
    else if blocks[chain[0]].start == key then Some(chain[0])
    else Stored(chain[1..], blocks, key)
  }

  /** hashmap_set. */
  function Set(w: Written, key: nat, value: nat): seq<seq<nat>>
    requires Shaped(w)
  {
    var b := key % BUCKETS;
    match Derived(w.chains[b], w.h.blocks, key)
    case Some(i) => w.chains[b := w.chains[b][..i] + [value] + w.chains[b][i + 1..]]
    case None => w.chains[b := [value] + w.chains[b]]
  }

  /** hashmap_set re-points the entry whose derived key it is, or enters the value at the front of
      the key's bucket; no other entry changes. */
  lemma SetExactly(w: Written, key: nat, value: nat)
    requires Shaped(w)
    ensures var chain, chain' := w.chains[key % 1023], Set(w, key, value)[key % 1023];
            && |Set(w, key, value)| == |w.chains|
            && (forall b :: 0 <= b < |w.chains| && b != key % 1023 ==> Set(w, key, value)[b] == w.chains[b])
            && match Derived(chain, w.h.blocks, key)
               case None => chain' == [value] + chain
               case Some(i) =>
                 chain' == chain[i := value] && forall k :: 0 <= k < i ==> w.h.blocks[chain[k] + 1].start != key
  {
    DerivedIsFirst(w.chains[key % 1023], w.h.blocks, key);
  }

  lemma {:induction false} DerivedIsFirst(chain: seq<nat>, blocks: seq<Block>, key: nat)
    requires forall i :: 0 <= i < |chain| ==> chain[i] + 1 < |blocks|
    ensures var r := Derived(chain, blocks, key);
            forall k :: 0 <= k < (if r.None? then |chain| else r.value) ==> blocks[chain[k] + 1].start != key
  {
    if chain != [] && blocks[chain[0] + 1].start != key { DerivedIsFirst(chain[1..], blocks, key); }
  }

  /** Allocation in a heap without gaps: the block goes behind the last one, so there is no next
      block whose entry would change (heap.c:90-92). */
  function Malloc(w: Written, used: nat, bytes: nat): Written
    requires Packed(w.h, used) && Shaped(w)
  {
    PackedMalloc(w.h, used, bytes);
    match Search(w.h, w.h.head, bytes)
    case None => w
    case Some(i) =>
      var h := InsertAfter(w.h, i, bytes);
      Written(h, Set(Written(h, w.chains), w.h.blocks[i].End(), i))
  }

  /** Release: take out the block behind the one the walk of hashmap_remove finds. */
  function Free(w: Written, key: nat): Heap
    requires Shaped(w)
  {
    match Stored(w.chains[key % BUCKETS], w.h.blocks, key)
    case None => w.h
    case Some(v) => RemoveAt(w.h, v + 1)
  }

  /** A heap after a program of allocations. */
  function AllocateAll(w: Written, used: nat, requests: seq<nat>): Written
    requires Packed(w.h, used) && Newest(w) && w.h.Solid()
    requires forall i :: 0 <= i < |requests| ==> requests[i] > 0
    decreases |requests|
  {
    if requests == [] then w
    else
      MallocNewest(w, used, requests[0]);
      PackedMalloc(w.h, used, requests[0]);
      AllocateAll(Malloc(w, used, requests[0]), if used + requests[0] <= w.h.size then used + requests[0] else used,
          requests[1..])
  }

  function Start(base: nat, size: nat): Written
  {
    Written(Init(base, size), seq(BUCKETS, _ => []))
  }

  // ---- What allocation leaves in the chains ----

  /** The chain of a bucket: the predecessors of its blocks, newest first. */
  ghost predicate NewestIn(h: Heap, chain: seq<nat>, b: nat)
  {
    && (forall v :: v in chain <==> 0 <= v && v + 1 < |h.blocks| && h.blocks[v + 1].start % BUCKETS == b)
    && (forall i, j :: 0 <= i < j < |chain| ==> chain[i] > chain[j])
  }

  ghost predicate Newest(w: Written)
  {
    |w.chains| == BUCKETS && forall b :: 0 <= b < BUCKETS ==> NewestIn(w.h, w.chains[b], b)
  }

  lemma NewestShaped(w: Written)
    requires Newest(w)
    ensures Shaped(w)
  {
    forall b, i | 0 <= b < BUCKETS && 0 <= i < |w.chains[b]| ensures w.chains[b][i] + 1 < |w.h.blocks| {
      assert NewestIn(w.h, w.chains[b], b) && w.chains[b][i] in w.chains[b];
    }
  }

  lemma {:induction false} NoneDerived(chain: seq<nat>, blocks: seq<Block>, key: nat)
    requires forall i :: 0 <= i < |chain| ==> chain[i] + 1 < |blocks| && blocks[chain[i] + 1].start != key
    ensures Derived(chain, blocks, key) == None
  {
    if chain != [] { NoneDerived(chain[1..], blocks, key); }
  }

  /** An allocation enters its block at the front of the chain of its bucket. */
  lemma MallocNewest(w: Written, used: nat, bytes: nat)
    requires Packed(w.h, used) && Newest(w) && w.h.Solid() && bytes > 0
    ensures Shaped(w) && Newest(Malloc(w, used, bytes)) && Malloc(w, used, bytes).h.Solid()
    ensures Malloc(w, used, bytes).h == HeapLayout.Malloc(w.h, bytes).0
  {
    NewestShaped(w);
    PackedMalloc(w.h, used, bytes);
    if used + bytes <= w.h.size {
      assert Search(w.h, w.h.head, bytes) == Some(w.h.head) by {
        assert w.h.Gap(w.h.head) >= bytes;
      }
      var h' := InsertAfter(w.h, w.h.head, bytes);
      InsertValid(w.h, w.h.head, bytes);
      Entered(w, h', w.h.blocks[w.h.head].End());
    }
  }

  lemma Entered(w: Written, h': Heap, key: nat)
    requires Newest(w) && w.h.blocks != [] && h'.Valid() && h'.Solid()
    requires |h'.blocks| == |w.h.blocks| + 1 && h'.blocks[..|w.h.blocks|] == w.h.blocks
    requires h'.blocks[|w.h.blocks|].start == key
    ensures Shaped(Written(h', w.chains))
    ensures Newest(Written(h', Set(Written(h', w.chains), key, |w.h.blocks| - 1)))
  {
    hide Derived;
    var n := |w.h.blocks|;
    forall b, i | 0 <= b < BUCKETS && 0 <= i < |w.chains[b]| ensures w.chains[b][i] + 1 < |h'.blocks| {
      assert NewestIn(w.h, w.chains[b], b) && w.chains[b][i] in w.chains[b];
    }
    SamePrefix(w.h.blocks, h'.blocks);
    NotDerived(w, h', key);
    var chains' := Set(Written(h', w.chains), key, n - 1);
    forall b | 0 <= b < BUCKETS ensures NewestIn(h', chains'[b], b) {
      assert NewestIn(w.h, w.chains[b], b);
      LongerChain(w.h, h', w.chains[b], b);
    }
  }

  lemma SamePrefix(blocks: seq<Block>, blocks': seq<Block>)
    requires |blocks| <= |blocks'| && blocks'[..|blocks|] == blocks
    ensures forall k :: 0 <= k < |blocks| ==> blocks'[k] == blocks[k]
  {
    forall k | 0 <= k < |blocks| ensures blocks'[k] == blocks[k] {
      assert blocks'[..|blocks|][k] == blocks[k];
    }
  }

  /** The address behind all blocks is the key of no entry. */
  lemma NotDerived(w: Written, h': Heap, key: nat)
    requires Newest(w) && h'.Valid() && h'.Solid() && Shaped(Written(h', w.chains))
    requires |h'.blocks| == |w.h.blocks| + 1 && h'.blocks[|w.h.blocks|].start == key
    ensures Derived(w.chains[key % BUCKETS], h'.blocks, key) == None
  {
    var b := key % BUCKETS;
    var chain := w.chains[b];
    assert NewestIn(w.h, chain, b);
    forall i | 0 <= i < |chain| ensures chain[i] + 1 < |h'.blocks| && h'.blocks[chain[i] + 1].start != key {
      assert chain[i] in chain;
      BlocksDisjoint(h', chain[i] + 1, |w.h.blocks|, 0);
    }
    NoneDerived(chain, h'.blocks, key);
  }

  lemma LongerChain(h: Heap, h': Heap, chain: seq<nat>, b: nat)
    requires NewestIn(h, chain, b) && |h.blocks| > 0
    requires |h'.blocks| == |h.blocks| + 1 && forall k :: 0 <= k < |h.blocks| ==> h'.blocks[k] == h.blocks[k]
    ensures NewestIn(h', if h'.blocks[|h.blocks|].start % BUCKETS == b then [|h.blocks| - 1] + chain else chain, b)
  {
    var n := |h.blocks|;
    if h'.blocks[n].start % BUCKETS == b {
      PrependedChain(h, h', chain, b);
    } else {
      forall v ensures v in chain <==> 0 <= v && v + 1 < |h'.blocks| && h'.blocks[v + 1].start % BUCKETS == b {
        if 0 <= v && v + 1 < n { assert h'.blocks[v + 1] == h.blocks[v + 1]; }
      }
    }
  }

  lemma PrependedChain(h: Heap, h': Heap, chain: seq<nat>, b: nat)
    requires NewestIn(h, chain, b) && |h.blocks| > 0
    requires |h'.blocks| == |h.blocks| + 1 && forall k :: 0 <= k < |h.blocks| ==> h'.blocks[k] == h.blocks[k]
    requires h'.blocks[|h.blocks|].start % BUCKETS == b
    ensures NewestIn(h', [|h.blocks| - 1] + chain, b)
  {
    var n := |h.blocks|;
    var longer := [n - 1] + chain;
    forall v ensures v in longer <==> 0 <= v && v + 1 < |h'.blocks| && h'.blocks[v + 1].start % BUCKETS == b {
      assert v in longer <==> v == n - 1 || v in chain;
      if 0 <= v && v + 1 < n { assert h'.blocks[v + 1] == h.blocks[v + 1]; }
    }
    forall i, j | 0 <= i < j < |longer| ensures longer[i] > longer[j] {
      assert longer[j] == chain[j - 1] && chain[j - 1] in chain;
      if i > 0 { assert longer[i] == chain[i - 1]; }
    }
  }

  // ---- When a release releases its block ----

  /** The block behind the j-th lies in the same bucket. */
  predicate Collides(h: Heap, j: nat)
    requires 0 < j < |h.blocks|
  {
    j + 1 < |h.blocks| && h.blocks[j].size % 1023 == 0
  }

  /** What a release takes out after a program of allocations: of the first block itself, of any
      other nothing; but the block behind, when that one lies in the same bucket. */
  lemma FreeTakes(w: Written, used: nat, j: nat)
    requires Packed(w.h, used) && Newest(w) && w.h.Solid() && 0 < j < |w.h.blocks|
    ensures Shaped(w)
    ensures Free(w, w.h.blocks[j].start) ==
            if Collides(w.h, j) then RemoveAt(w.h, j + 1)
            else if j == 1 then RemoveAt(w.h, 1)
            else w.h
  {
    NewestShaped(w);
    var p := w.h.blocks[j].start;
    var chain := w.chains[p % BUCKETS];
    assert NewestIn(w.h, chain, p % BUCKETS);
    forall v | v in chain ensures w.h.blocks[v].start == p <==> v == j || (v == 0 && j == 1) {
      SameStart(w.h, used, v, j);
    }
    InOwnChain(w, used, j);
    hide Packed, Newest, NewestIn, Collides;
    FirstStored(chain, w.h.blocks, p, if Collides(w.h, j) then j else 0);
  }

  /** Which predecessors the chain of block j's bucket holds. */
  lemma InOwnChain(w: Written, used: nat, j: nat)
    requires Packed(w.h, used) && Newest(w) && 0 < j < |w.h.blocks|
    ensures var chain := w.chains[w.h.blocks[j].start % BUCKETS];
            (j in chain <==> Collides(w.h, j)) && (j == 1 ==> 0 in chain)
  {
    var b := w.h.blocks[j].start % BUCKETS;
    assert NewestIn(w.h, w.chains[b], b);
    ChainHolds(w.h, w.chains[b], b, j);
    ChainHolds(w.h, w.chains[b], b, 0);
    assert j + 1 < |w.h.blocks| ==> w.h.Gap(j) == 0;
    assert j == 1 ==> w.h.Gap(0) == 0;
    hide NewestIn, Newest, Packed;
    if j + 1 < |w.h.blocks| { SameBucket(w.h.blocks[j].start, w.h.blocks[j].size); }
  }

  lemma ChainHolds(h: Heap, chain: seq<nat>, b: nat, v: nat)
    requires NewestIn(h, chain, b)
    ensures v in chain <==> v + 1 < |h.blocks| && h.blocks[v + 1].start % BUCKETS == b
  {}

  lemma SameBucket(start: nat, size: nat)
    ensures (start + size) % BUCKETS == start % BUCKETS <==> size % BUCKETS == 0
  {}

  lemma SameStart(h: Heap, used: nat, v: nat, j: nat)
    requires Packed(h, used) && h.Solid() && v < |h.blocks| && 0 < j < |h.blocks|
    ensures h.blocks[v].start == h.blocks[j].start <==> v == j || (v == 0 && j == 1)
  {
    assert h.Gap(0) == 0;
    if 0 < v < j { BlocksDisjoint(h, v, j, 0); }
    if j < v { BlocksDisjoint(h, j, v, 0); }
    if v == 0 && j > 1 { BlocksDisjoint(h, 1, j, 0); }
  }

  /** The walk stops at the newest match. */
  lemma {:induction false} FirstStored(chain: seq<nat>, blocks: seq<Block>, key: nat, v: nat)
    requires forall i :: 0 <= i < |chain| ==> chain[i] + 1 < |blocks|
    requires forall i, j :: 0 <= i < j < |chain| ==> chain[i] > chain[j]
    requires forall u :: u in chain && blocks[u].start == key ==> u <= v
    ensures v in chain && blocks[v].start == key ==> Stored(chain, blocks, key) == Some(v)
  {
    if chain != [] && blocks[chain[0]].start != key {
      FirstStored(chain[1..], blocks, key, v);
    }
  }

  lemma {:induction false} AllocateAllNewest(w: Written, used: nat, requests: seq<nat>) returns (used': nat)
    requires Packed(w.h, used) && Newest(w) && w.h.Solid()
    requires forall i :: 0 <= i < |requests| ==> requests[i] > 0
    ensures var r := AllocateAll(w, used, requests); Packed(r.h, used') && Newest(r) && r.h.Solid()
    decreases |requests|
  {
    used' := used;
    if requests != [] {
      MallocNewest(w, used, requests[0]);
      PackedMalloc(w.h, used, requests[0]);
      used' := AllocateAllNewest(Malloc(w, used, requests[0]),
                                 if used + requests[0] <= w.h.size then used + requests[0] else used, requests[1..]);
    }
  }

  lemma StartNewest(base: nat, size: nat)
    ensures Newest(Start(base, size)) && Packed(Init(base, size), 0) && Init(base, size).Solid()
  {}

  /** The heap after a program of allocations is the layout's, whichever requests fit. */
  lemma {:induction false} AllocateAllIsRun(w: Written, used: nat, requests: seq<nat>)
    requires Packed(w.h, used) && Newest(w) && w.h.Solid()
    requires forall i :: 0 <= i < |requests| ==> requests[i] > 0
    ensures w.h.Valid() && AllocateAll(w, used, requests).h == Run(w.h, Allocations(requests)).0
    decreases |requests|
  {
    if requests == [] {
      RunNothing(w.h);
    } else {
      AllocationsTail(requests);
      RunCons(w.h, Allocations(requests));
      MallocNewest(w, used, requests[0]);
      PackedMalloc(w.h, used, requests[0]);
      MallocIsStep(w, used, requests[0]);
      AllocateAllIsRun(Malloc(w, used, requests[0]),
                       if used + requests[0] <= w.h.size then used + requests[0] else used, requests[1..]);
    }
  }

  lemma MallocIsStep(w: Written, used: nat, bytes: nat)
    requires Packed(w.h, used) && Shaped(w)
    ensures Malloc(w, used, bytes).h == Step(w.h, Allocate(bytes)).0
  {}

  /** After any program of allocations, releasing a block as written does what it should exactly
      when it is the first block and no block behind it shares its bucket. */
  lemma FreeIsRightExactly(base: nat, size: nat, requests: seq<nat>, j: nat)
    requires forall i :: 0 <= i < |requests| ==> requests[i] > 0
    ensures Newest(Start(base, size)) && Packed(Init(base, size), 0) && Init(base, size).Solid()
    ensures var w := AllocateAll(Start(base, size), 0, requests);
            w.h == Run(Init(base, size), Allocations(requests)).0 && Newest(w)
    ensures var w := AllocateAll(Start(base, size), 0, requests);
            0 < j < |w.h.blocks| ==>
              && Shaped(w)
              && (Free(w, w.h.blocks[j].start) == HeapLayout.Free(w.h, w.h.blocks[j].start)
                  <==> j == 1 && !Collides(w.h, j))
  {
    StartNewest(base, size);
    var used := AllocateAllNewest(Start(base, size), 0, requests);
    AllocateAllIsRun(Start(base, size), 0, requests);
    var w := AllocateAll(Start(base, size), 0, requests);
    if 0 < j < |w.h.blocks| {
      FreeTakes(w, used, j);
      FindUnique(w.h, j);
      assert HeapLayout.Free(w.h, w.h.blocks[j].start) == RemoveAt(w.h, j);
      assert |RemoveAt(w.h, j).blocks| == |w.h.blocks| - 1;
      if Collides(w.h, j) {
        BlocksDisjoint(w.h, j, j + 1, 0);
        assert RemoveAt(w.h, j + 1).blocks[j] == w.h.blocks[j] && RemoveAt(w.h, j).blocks[j] == w.h.blocks[j + 1];
      }
    }
  }

  // ---- When a release also leaves the index right ----

  /** The chain without the node hashmap_remove unlinks. */
  function Unlinked(chain: seq<nat>, blocks: seq<Block>, key: nat): seq<nat>
    requires forall i :: 0 <= i < |chain| ==> chain[i] + 1 < |blocks|
  {
    if chain == [] then []
    else if blocks[chain[0]].start == key then chain[1..]
    else [chain[0]] + Unlinked(chain[1..], blocks, key)
  }

  /** The chains after a release, which names records by their positions before it. */
  function FreeIndex(w: Written, key: nat): seq<seq<nat>>
    requires Shaped(w)
  {
    w.chains[key % BUCKETS := Unlinked(w.chains[key % BUCKETS], w.h.blocks, key)]
  }

  /** The bucket of the key loses its first node whose stored value starts at the key, if there is
      one, and nothing else changes. */
  lemma FreeIndexExactly(w: Written, key: nat) returns (i: nat)
    requires Shaped(w)
    ensures var chain, chain' := w.chains[key % 1023], FreeIndex(w, key)[key % 1023];
            && |FreeIndex(w, key)| == |w.chains|
            && (forall b :: 0 <= b < |w.chains| && b != key % 1023 ==> FreeIndex(w, key)[b] == w.chains[b])
            && i <= |chain| && (forall k :: 0 <= k < i ==> w.h.blocks[chain[k]].start != key)
            && (i == |chain| ==> chain' == chain)
            && (i < |chain| ==> w.h.blocks[chain[i]].start == key && chain' == chain[..i] + chain[i + 1..])
  {
    i := UnlinkedAt(w.chains[key % 1023], w.h.blocks, key);
  }

  lemma {:induction false} UnlinkedAt(chain: seq<nat>, blocks: seq<Block>, key: nat) returns (i: nat)
    requires forall i :: 0 <= i < |chain| ==> chain[i] + 1 < |blocks|
    ensures i <= |chain| && forall k :: 0 <= k < i ==> blocks[chain[k]].start != key
    ensures i == |chain| ==> Unlinked(chain, blocks, key) == chain
    ensures i < |chain| ==>
              blocks[chain[i]].start == key && Unlinked(chain, blocks, key) == chain[..i] + chain[i + 1..]
  {
    i := 0;
    if chain != [] && blocks[chain[0]].start != key {
      var rest := UnlinkedAt(chain[1..], blocks, key);
      i := rest + 1;
      assert chain == [chain[0]] + chain[1..];
      if rest < |chain[1..]| {
        assert [chain[0]] + (chain[1..][..rest] + chain[1..][rest + 1..]) == chain[..i] + chain[i + 1..];
      }
    }
  }

  /** Without block j every other block is entered with the record now in front of it, and no
      entry holds the released record. */
  ghost predicate IndexRight(h: Heap, chains: seq<seq<nat>>, j: nat)
    requires |chains| == BUCKETS
  {
    && (forall k :: 0 < k < |h.blocks| && k != j ==>
          (if k == j + 1 then j - 1 else k - 1) in chains[h.blocks[k].start % BUCKETS])
    && (forall b :: 0 <= b < BUCKETS ==> j !in chains[b])
  }

  lemma {:induction false} DecreasingSize(chain: seq<nat>, n: nat)
    requires forall i :: 0 <= i < |chain| ==> chain[i] < n
    requires forall i, j :: 0 <= i < j < |chain| ==> chain[i] > chain[j]
    ensures |chain| <= n
  {
    if chain != [] {
      DecreasingSize(chain[1..], chain[0]);
    }
  }

  lemma OnlyBlockIndex(w: Written, used: nat)
    requires Packed(w.h, used) && Newest(w) && w.h.Solid() && |w.h.blocks| == 2
    ensures Shaped(w) && IndexRight(w.h, FreeIndex(w, w.h.blocks[1].start), 1)
  {
    NewestShaped(w);
    var key := w.h.blocks[1].start;
    var chain := w.chains[key % BUCKETS];
    assert NewestIn(w.h, chain, key % BUCKETS) && w.h.Gap(0) == 0;
    assert 0 in chain && forall i :: 0 <= i < |chain| ==> chain[i] in chain && chain[i] == 0;
    DecreasingSize(chain, 1);
    assert chain == [0];
    forall b | 0 <= b < BUCKETS ensures 1 !in FreeIndex(w, key)[b] {
      assert NewestIn(w.h, w.chains[b], b);
    }
  }

  lemma NextEntryStays(w: Written, used: nat)
    requires Packed(w.h, used) && Newest(w) && w.h.Solid() && |w.h.blocks| > 2 && !Collides(w.h, 1)
    ensures Shaped(w) && !IndexRight(w.h, FreeIndex(w, w.h.blocks[1].start), 1)
  {
    NewestShaped(w);
    var key, next := w.h.blocks[1].start, w.h.blocks[2].start;
    assert w.h.Gap(1) == 0;
    assert key % BUCKETS != next % BUCKETS;
    assert NewestIn(w.h, w.chains[next % BUCKETS], next % BUCKETS);
    assert 1 in FreeIndex(w, key)[next % BUCKETS];
  }

  /** After any program of allocations, a release as written leaves both the list and the index as
      they should be exactly when the block is the only one: any other block it takes out leaves
      the entry of the block behind at the released record. */
  lemma FreeIsCleanExactly(base: nat, size: nat, requests: seq<nat>, j: nat)
    requires forall i :: 0 <= i < |requests| ==> requests[i] > 0
    ensures Newest(Start(base, size)) && Packed(Init(base, size), 0) && Init(base, size).Solid()
    ensures var w := AllocateAll(Start(base, size), 0, requests);
            w.h == Run(Init(base, size), Allocations(requests)).0 && Newest(w)
    ensures var w := AllocateAll(Start(base, size), 0, requests);
            0 < j < |w.h.blocks| ==>
              && Shaped(w)
              && (Free(w, w.h.blocks[j].start) == HeapLayout.Free(w.h, w.h.blocks[j].start)
                  && IndexRight(w.h, FreeIndex(w, w.h.blocks[j].start), j)
                  <==> |w.h.blocks| == 2)
  {
    hide AllocateAll, Free, HeapLayout.Free, Newest, Packed, IndexRight, FreeIndex;
    FreeIsRightExactly(base, size, requests, j);
    var used := AllocateAllNewest(Start(base, size), 0, requests);
    var w := AllocateAll(Start(base, size), 0, requests);
    if 0 < j < |w.h.blocks| {
      if |w.h.blocks| == 2 {
        OnlyBlockIndex(w, used);
      } else if j == 1 && !Collides(w.h, 1) {
        NextEntryStays(w, used);
      }
    }
  }

  function Sum(requests: seq<nat>): nat
  {
    if requests == [] then 0 else requests[0] + Sum(requests[1..])
  }

  /** One allocation that fits. */
  lemma Fits(w: Written, used: nat, requests: seq<nat>) returns (w': Written)
    requires Packed(w.h, used) && Newest(w) && w.h.Solid() && requests != []
    requires forall i :: 0 <= i < |requests| ==> requests[i] > 0
    requires used + requests[0] <= w.h.size
    ensures Packed(w'.h, used + requests[0]) && Newest(w') && w'.h.Solid()
    ensures w'.h.size == w.h.size && w'.h.base == w.h.base
    ensures w'.h.blocks == w.h.blocks + [Block(w.h.base + used, requests[0])]
    ensures AllocateAll(w, used, requests) == AllocateAll(w', used + requests[0], requests[1..])
  {
    hide *;
    NewestShaped(w);
    MallocNewest(w, used, requests[0]);
    PackedMalloc(w.h, used, requests[0]);
    PackedInsert(w.h, used, requests[0]);
    AllocateFirst(w, used, requests);
    w' := Malloc(w, used, requests[0]);
  }

  /** In a heap without gaps the new block goes behind all others. */
  lemma PackedInsert(h: Heap, used: nat, bytes: nat)
    requires Packed(h, used)
    ensures h.head < |h.blocks| && InsertAfter(h, h.head, bytes).base == h.base
            && InsertAfter(h, h.head, bytes).size == h.size
    ensures InsertAfter(h, h.head, bytes).blocks == h.blocks + [Block(h.base + used, bytes)]
  {}

  lemma AllocateFirst(w: Written, used: nat, requests: seq<nat>)
    requires Packed(w.h, used) && Newest(w) && w.h.Solid() && requests != []
    requires forall i :: 0 <= i < |requests| ==> requests[i] > 0
    requires used + requests[0] <= w.h.size
    requires Shaped(w) && var w' := Malloc(w, used, requests[0]);
             Packed(w'.h, used + requests[0]) && Newest(w') && w'.h.Solid()
    ensures AllocateAll(w, used, requests) ==
            AllocateAll(Malloc(w, used, requests[0]), used + requests[0], requests[1..])
  {
    hide Malloc, Newest, Packed;
  }

  /** The blocks a program of requests lays down from an offset on. */
  function Laid(at: nat, requests: seq<nat>): (r: seq<Block>)
    ensures |r| == |requests| && forall i :: 0 <= i < |r| ==> r[i].size == requests[i]
    decreases |requests|
  {
    if requests == [] then [] else [Block(at, requests[0])] + Laid(at + requests[0], requests[1..])
  }

  /** A program that fits fills the heap with its requests, in order. */
  lemma {:induction false} AllFit(w: Written, used: nat, requests: seq<nat>) returns (r: Written)
    requires Packed(w.h, used) && Newest(w) && w.h.Solid()
    requires forall i :: 0 <= i < |requests| ==> requests[i] > 0
    requires used + Sum(requests) <= w.h.size
    ensures r == AllocateAll(w, used, requests)
    ensures Packed(r.h, used + Sum(requests)) && Newest(r) && r.h.Solid() && r.h.size == w.h.size
    ensures r.h.blocks == w.h.blocks + Laid(w.h.base + used, requests)
    decreases |requests|
  {
    hide AllocateAll, Packed, Newest;
    AllocateNone(w, used);
    if requests != [] {
      var w' := Fits(w, used, requests);
      r := AllFit(w', used + requests[0], requests[1..]);
      Associates(w.h.blocks, Block(w.h.base + used, requests[0]), Laid(w'.h.base + used + requests[0], requests[1..]));
    } else {
      r := w;
      assert w.h.blocks + [] == w.h.blocks;
    }
  }

  lemma AllocateNone(w: Written, used: nat)
    requires Packed(w.h, used) && Newest(w) && w.h.Solid()
    ensures AllocateAll(w, used, []) == w
  {}

  lemma Associates(a: seq<Block>, x: Block, b: seq<Block>)
    ensures (a + [x]) + b == a + ([x] + b)
  {}

  /** A full heap with block k + 1 taken out hands out the address of block k + 1 only. */
  lemma OneGap(h: Heap, used: nat, k: nat, bytes: nat)
    requires Packed(h, used) && used == h.size && h.Solid() && bytes > 0 && k + 1 < |h.blocks|
    ensures var r := HeapLayout.Malloc(RemoveAt(h, k + 1), bytes).1; r.Some? ==> r.value == h.blocks[k + 1].start
  {
    var h' := RemoveAt(h, k + 1);
    hide Packed, RemoveAt, InsertAfter;
    RemoveValid(h, k + 1);
    MallocExactly(h', bytes);
    if HeapLayout.Malloc(h', bytes).1.Some? {
      var i: nat :| i < |h'.blocks| && h'.Gap(i) >= bytes
        && HeapLayout.Malloc(h', bytes) == (InsertAfter(h', i, bytes), Some(h'.blocks[i].End()));
      if i != k { OnlyGap(h, used, k, i); }
      EndsAt(h, used, k);
    }
  }

  lemma OnlyGap(h: Heap, used: nat, k: nat, i: nat)
    requires Packed(h, used) && used == h.size && k + 1 < |h.blocks| && i != k
    ensures i < |RemoveAt(h, k + 1).blocks| ==> RemoveAt(h, k + 1).Gap(i) == 0
  {
    if i < |h.blocks| - 1 { OtherGaps(h, k + 1, i); }
    assert forall i :: 0 <= i < |h.blocks| ==> h.Gap(i) == 0;
  }

  lemma EndsAt(h: Heap, used: nat, k: nat)
    requires Packed(h, used) && k + 1 < |h.blocks|
    ensures RemoveAt(h, k + 1).blocks[k].End() == h.blocks[k + 1].start
  {
    assert h.Gap(k) == 0;
  }

  /** Free undone by malloc, as written: after a program that fills the heap, releasing a block and
      asking for its size again gives its address back exactly when it is the first block and the
      block behind it lies in another bucket. (HeapTheorems.FullHeapReuse: as designed, always.)
      The address is what the search over the list decides. That second allocation also updates
      the index in the middle of the list (heap.c:91), where the walk along a bucket may read the
      released record; what becomes of the index then is not modelled. */
  lemma FullHeapReuseExactly(base: nat, requests: seq<nat>, j: nat)
    requires 0 < j <= |requests| && forall i :: 0 <= i < |requests| ==> requests[i] > 0
    ensures Newest(Start(base, Sum(requests))) && Packed(Init(base, Sum(requests)), 0)
            && Init(base, Sum(requests)).Solid()
    ensures var w := AllocateAll(Start(base, Sum(requests)), 0, requests);
            && Shaped(w) && |w.h.blocks| == |requests| + 1 && Free(w, w.h.blocks[j].start).Valid()
            && (HeapLayout.Malloc(Free(w, w.h.blocks[j].start), requests[j - 1]).1 == Some(w.h.blocks[j].start)
                <==> j == 1 && !(1 < |requests| && requests[0] % 1023 == 0))
  {
    hide AllocateAll, Free, Shaped, Newest, HeapLayout.Malloc;
    StartNewest(base, Sum(requests));
    var w := AllFit(Start(base, Sum(requests)), 0, requests);
    assert w.h.blocks[j] == Laid(base, requests)[j - 1];
    assert j == 1 ==> w.h.blocks[1].size == requests[0];
    ReuseInFull(w, j);
  }

  lemma ReuseInFull(w: Written, j: nat)
    requires Packed(w.h, w.h.size) && Newest(w) && w.h.Solid() && 0 < j < |w.h.blocks|
    ensures Shaped(w) && Free(w, w.h.blocks[j].start).Valid()
    ensures HeapLayout.Malloc(Free(w, w.h.blocks[j].start), w.h.blocks[j].size).1 == Some(w.h.blocks[j].start)
            <==> j == 1 && !Collides(w.h, 1)
  {
    FreeTakes(w, w.h.size, j);
    if Collides(w.h, j) {
      RemoveValid(w.h, j + 1);
      OneGap(w.h, w.h.size, j, w.h.blocks[j].size);
      BlocksDisjoint(w.h, j, j + 1, 0);
    } else if j == 1 {
      RemoveValid(w.h, 1);
      FindUnique(w.h, 1);
      assert forall k :: 0 <= k < |w.h.blocks| ==> w.h.Gap(k) == 0;
      FullHeapReuse(w.h, 1);
    } else {
      PackedMalloc(w.h, w.h.size, w.h.blocks[j].size);
    }
  }

  /** After a program that fills the heap, a release of a later block that shares no bucket with
      the block behind it frees nothing, and its size does not fit any more. */
  lemma LaterBlockIsLost(base: nat, requests: seq<nat>, j: nat)
    requires 1 < j <= |requests| && forall i :: 0 <= i < |requests| ==> requests[i] > 0
    requires j == |requests| || requests[j - 1] % 1023 != 0
    ensures Newest(Start(base, Sum(requests))) && Packed(Init(base, Sum(requests)), 0)
            && Init(base, Sum(requests)).Solid()
    ensures var w := AllocateAll(Start(base, Sum(requests)), 0, requests);
            && Shaped(w) && |w.h.blocks| == |requests| + 1 && w.h.head < |w.h.blocks|
            && Free(w, w.h.blocks[j].start) == w.h && HeapLayout.Malloc(w.h, requests[j - 1]) == (w.h, None)
  {
    hide AllocateAll, Free, Shaped, Newest, HeapLayout.Malloc;
    StartNewest(base, Sum(requests));
    var w := AllFit(Start(base, Sum(requests)), 0, requests);
    assert w.h.blocks[j] == Laid(base, requests)[j - 1];
    LostInFull(w, j);
  }

  lemma LostInFull(w: Written, j: nat)
    requires Packed(w.h, w.h.size) && Newest(w) && w.h.Solid() && 1 < j < |w.h.blocks| && !Collides(w.h, j)
    ensures Shaped(w) && w.h.head < |w.h.blocks|
    ensures Free(w, w.h.blocks[j].start) == w.h && HeapLayout.Malloc(w.h, w.h.blocks[j].size) == (w.h, None)
  {
    FreeTakes(w, w.h.size, j);
    PackedMalloc(w.h, w.h.size, w.h.blocks[j].size);
  }

  /** The allocations of test/shmem_heap.c, 1, 4, 1 and 1018 bytes: a release of the second block
      right after them frees nothing. (The test releases and reallocates the first block before.) */
  lemma SecondBlockIsNotReused(base: nat)
    ensures Newest(Start(base, 1024)) && Packed(Init(base, 1024), 0) && Init(base, 1024).Solid()
    ensures var w := AllocateAll(Start(base, 1024), 0, [1, 4, 1, 1018]);
            && Shaped(w) && |w.h.blocks| == 5 && w.h.head < 5
            && Free(w, w.h.blocks[2].start) == w.h && HeapLayout.Malloc(w.h, 4) == (w.h, None)
  {
    hide AllocateAll, Free, Shaped, Newest, HeapLayout.Malloc;
    assert Sum([1, 4, 1, 1018]) == 1024 by {
      assert [1, 4, 1, 1018][1..] == [4, 1, 1018] && [4, 1, 1018][1..] == [1, 1018] && [1, 1018][1..] == [1018];
    }
    LaterBlockIsLost(base, [1, 4, 1, 1018], 2);
  }
}

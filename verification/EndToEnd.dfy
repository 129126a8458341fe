/** A put from the pointer a program passes to the bytes of the target's block: symmetric
    layouts, delivery and barrier put together (src/shmem.c:112-115, src/comm/comm.c:96-165,
    src/comm/comm_local.c:117-127). */
module EndToEnd {
  import opened Actions
  import opened Delivery
  import opened Barrier
  import opened Writes
  import opened Completion
  import opened Guarantee
  import opened History
  import opened SymmetricPut
  import opened HeapTheorems
  import HeapLayout

  // ---- Bytes that no put covers ----

  /** No put that reached this memory between two records covers the byte. */
  ghost predicate Spared(pe: Pe, pe': Pe, x: nat)
  {
    && |pe.got| == |pe'.got|
    && forall a, k :: 0 <= a < |pe.got| && |pe.got[a]| <= k < |pe'.got[a]| ==> !Covers(pe'.got[a][k], x)
  }

  /** Memory only gains puts. */
  ghost predicate Grown(pe: Pe, pe': Pe)
  {
    && |pe.got| == |pe'.got| && |pe.heap| == |pe'.heap|
    && forall a :: 0 <= a < |pe.got| ==> pe.got[a] <= pe'.got[a]
  }

  lemma GetsGrown(pe: Pe, pe': Pe, origin: nat, put: Put, x: nat)
    requires Gets(pe, pe', origin, put) && x < |pe.heap|
    ensures Grown(pe, pe') && (Spared(pe, pe', x) ==> pe'.heap[x] == pe.heap[x])
  {
    GetsHeap(pe, pe', origin, put, x);
    assert pe'.got[origin][|pe.got[origin]|] == put;
  }

  lemma StepGrown(cfg: Config, st: State, act: Action, q: nat, x: nat)
    requires Inv(cfg, st) && Can(cfg, st, act) && q < |st| && x < |st[q].heap|
    ensures var st' := Do(cfg, st, act);
            q < |st'| && Grown(st[q], st'[q]) && (Spared(st[q], st'[q], x) ==> st'[q].heap[x] == st[q].heap[x])
  {
    EveryActionWritesOnce(cfg, st, act);
    var w := WriteOf(cfg, st, act);
    hide Do, Can, Gets;
    if w.Into? && w.q == q { GetsGrown(st[q], Do(cfg, st, act)[q], w.origin, w.put, x); }
  }

  lemma GrownTwice(p0: Pe, p1: Pe, p2: Pe, x: nat)
    requires Grown(p0, p1) && Grown(p1, p2)
    ensures Grown(p0, p2) && (Spared(p0, p2, x) ==> Spared(p0, p1, x) && Spared(p1, p2, x))
  {
    if Spared(p0, p2, x) {
      forall a, k | 0 <= a < |p0.got| && |p0.got[a]| <= k < |p1.got[a]| ensures !Covers(p1.got[a][k], x) {
        assert p2.got[a][k] == p1.got[a][k];
      }
    }
  }

  /** Over any part of any run, a byte that no put arriving in it covers keeps its value. */
  lemma {:induction false} UncoveredBytesStay(cfg: Config, from: State, acts: seq<Action>, st: State, q: nat, x: nat)
    requires Inv(cfg, from) && Runs(cfg, from, acts, st) && q < |from| && x < |from[q].heap|
    ensures q < |st| && Grown(from[q], st[q])
    ensures Spared(from[q], st[q], x) ==> st[q].heap[x] == from[q].heap[x]
    decreases |acts|
  {
    hide Inv, Do, Can, Grown, Spared;
    InvShaped(cfg, from);
    if acts == [] {
      GrownSelf(from[q]);
    } else {
      StepKeeps(cfg, from, acts[0]);
      StepGrown(cfg, from, acts[0], q, x);
      var next := Do(cfg, from, acts[0]);
      SameSize(from[q], next[q]);
      UncoveredBytesStay(cfg, next, acts[1..], st, q, x);
      GrownTwice(from[q], next[q], st[q], x);
    }
  }

  lemma InvShaped(cfg: Config, st: State)
    requires Inv(cfg, st)
    ensures Shaped(cfg, st)
  {}

  lemma GrownSelf(pe: Pe)
    ensures Grown(pe, pe)
  {}

  lemma SameSize(pe: Pe, pe': Pe)
    requires Grown(pe, pe')
    ensures |pe.heap| == |pe'.heap|
  {}

  // ---- From the caller's pointer to the target's block ----

  /** The layout of a PE's heap after a program of allocation calls. */
  ghost predicate LaidOut(h: HeapLayout.Heap, base: nat, size: nat, calls: seq<Call>)
  {
    HeapLayout.Init(base, size).Valid() && h == Run(HeapLayout.Init(base, size), calls).0
  }

  /** The range of the pointer lies in block j. */
  predicate PointsInto(h: HeapLayout.Heap, j: nat, dest: nat, count: nat)
  {
    0 < j < |h.blocks| && h.blocks[j].start <= dest && dest + count <= h.blocks[j].End()
  }

  /** Block j of the memory holds the bytes, `skip` bytes from its start. */
  ghost predicate Holds(h: HeapLayout.Heap, j: nat, skip: nat, memory: seq<nat>, bytes: seq<nat>)
    requires j < |h.blocks|
  {
    var lo := h.blocks[j].start - h.base + skip;
    && skip + |bytes| <= h.blocks[j].size && 0 <= lo && lo + |bytes| <= |memory|
    && forall i :: 0 <= i < |bytes| ==> memory[lo + i] == bytes[i]
  }

  /** Of all puts handed over for b, only those of a up to its m-th cover the byte. */
  ghost predicate OnlyUpTo(st: State, a: nat, b: nat, m: nat, x: nat)
  {
    forall c, i ::
      0 <= c < |st| && b < |st[c].handed| && 0 <= i < |st[c].handed[b]| && Covers(st[c].handed[b][i], x) ==>
        c == a && i <= m
  }

  lemma ByteArrives(cfg: Config, acts: seq<Action>, st: State, a: nat, b: nat, k: nat, m: nat, x: nat)
    requires cfg.N() > 0 && Runs(cfg, Init(cfg), acts, st) && |st| == cfg.N() && Shaped(cfg, st)
    requires a < cfg.N() && b < cfg.N() && Covered(cfg, a, b) && k < Left(st[b]) && k < |st[a].snaps|
    requires m < |st[a].snaps[k][b]| && Covers(st[a].snaps[k][b][m], x) && x < cfg.size && OnlyUpTo(st, a, b, m, x)
    ensures st[b].heap[x] == ByteAt(st[a].snaps[k][b][m], x)
  {
    var snap := st[a].snaps[k][b];
    SnapIsPrefix(cfg, acts, st, a, b, k);
    forall i | m < i < |snap| ensures !Covers(snap[i], x) { assert snap[i] == st[a].handed[b][i]; }
    LastFrom(snap, x, m);
    forall c, i | 0 <= c < cfg.N() && 0 <= i < |st[c].handed[b]| && Covers(st[c].handed[b][i], x)
      ensures c == a && i < |snap|
    {}
    VisibleAfterBarrier(cfg, acts, st, a, b, k, x, ByteAt(snap[m], x));
  }

  lemma SnapIsPrefix(cfg: Config, acts: seq<Action>, st: State, a: nat, b: nat, k: nat)
    requires cfg.N() > 0 && Runs(cfg, Init(cfg), acts, st) && |st| == cfg.N() && Shaped(cfg, st)
    requires a < cfg.N() && b < cfg.N() && k < |st[a].snaps|
    ensures st[a].snaps[k][b] <= st[a].handed[b]
  {
    InitInv(cfg);
    RunKeeps(cfg, Init(cfg), acts, st);
    assert PeOk(cfg.N(), a, st[a]) && SnapOk(a, k, st[a].snaps[k], st[a].handed);
  }

  lemma Layouts(mine: HeapLayout.Heap, theirs: HeapLayout.Heap, base1: nat, base2: nat, size: nat, calls: seq<Call>)
    requires LaidOut(mine, base1, size, calls) && LaidOut(theirs, base2, size, calls)
    ensures Translated(mine, theirs) && mine.Valid() && theirs.Valid() && mine.size == size
  {
    SymmetricHeaps(base1, base2, size, calls);
    RunInvariant(HeapLayout.Init(base1, size), calls);
    RunInvariant(HeapLayout.Init(base2, size), calls);
  }

  lemma PlaceOf(mine: HeapLayout.Heap, theirs: HeapLayout.Heap, j: nat, dest: nat, count: nat)
    requires Translated(mine, theirs) && mine.Valid() && PointsInto(mine, j, dest, count)
    ensures j < |theirs.blocks| && 0 <= Offset(mine, dest) && Offset(mine, dest) + count <= mine.size
    ensures Offset(mine, dest) == theirs.blocks[j].start - theirs.base + (dest - mine.blocks[j].start)
    ensures dest - mine.blocks[j].start + count <= theirs.blocks[j].size
  {
    HeapLayout.StartsInside(mine, j);
    HeapLayout.EndsInside(mine, j);
  }

  /** When b has left call k, a put that is in a's snapshot of the call holds its range of block j. */
  lemma SnapshotArrives(cfg: Config, mine: HeapLayout.Heap, theirs: HeapLayout.Heap, base1: nat, base2: nat,
                        calls: seq<Call>, acts: seq<Action>, st: State, a: nat, b: nat, k: nat, m: nat, j: nat,
                        dest: nat, bytes: seq<nat>)
    requires LaidOut(mine, base1, cfg.size, calls) && LaidOut(theirs, base2, cfg.size, calls)
    requires PointsInto(mine, j, dest, |bytes|) && Offset(mine, dest) >= 0
    requires cfg.N() > 0 && Runs(cfg, Init(cfg), acts, st) && |st| == cfg.N() && Shaped(cfg, st)
    requires a < cfg.N() && b < cfg.N() && Covered(cfg, a, b) && k < Left(st[b]) && k < |st[a].snaps|
    requires m < |st[a].snaps[k][b]| && st[a].snaps[k][b][m] == Data(Offset(mine, dest), bytes)
    requires forall x: nat :: Covers(Data(Offset(mine, dest), bytes), x) ==> OnlyUpTo(st, a, b, m, x)
    ensures j < |theirs.blocks| && Holds(theirs, j, dest - mine.blocks[j].start, st[b].heap, bytes)
    ensures forall x: nat :: Covers(Data(Offset(mine, dest), bytes), x) ==> InBlock(theirs, j, x)
    ensures forall x: nat, i :: 0 <= i < |theirs.blocks| && i != j && InBlock(theirs, i, x) ==>
              !Covers(Data(Offset(mine, dest), bytes), x)
  {
    hide Run, Runs, LaidOut, Left, Inv;
    Layouts(mine, theirs, base1, base2, cfg.size, calls);
    PlaceOf(mine, theirs, j, dest, |bytes|);
    var lo := Offset(mine, dest);
    var put := Data(lo, bytes);
    assert PeShaped(cfg, st[b]);
    forall i | 0 <= i < |bytes| ensures st[b].heap[lo + i] == bytes[i] {
      assert Covers(put, lo + i);
      ByteArrives(cfg, acts, st, a, b, k, m, lo + i);
    }
    CoversOneBlock(theirs, j, dest - mine.blocks[j].start, lo, bytes);
  }

  lemma CoversOneBlock(h: HeapLayout.Heap, j: nat, skip: nat, lo: nat, bytes: seq<nat>)
    requires h.Valid() && j < |h.blocks| && lo == h.blocks[j].start - h.base + skip
             && skip + |bytes| <= h.blocks[j].size
    ensures forall x: nat :: Covers(Data(lo, bytes), x) ==> InBlock(h, j, x)
    ensures forall x: nat, i :: 0 <= i < |h.blocks| && i != j && InBlock(h, i, x) ==> !Covers(Data(lo, bytes), x)
  {
    forall x: nat, i | 0 <= i < |h.blocks| && i != j && InBlock(h, i, x) ensures !Covers(Data(lo, bytes), x) {
      if i < j { HeapLayout.Ordered(h, i, j); } else { HeapLayout.Ordered(h, j, i); }
    }
  }

  /** A put made before call k is in the snapshot of call k. */
  lemma PutInSnapshot(cfg: Config, before: seq<Action>, st0: State, after: seq<Action>, st: State,
                      a: nat, b: nat, k: nat, put: Put)
    returns (acts: seq<Action>)
    requires cfg.N() > 0 && Runs(cfg, Init(cfg), before, st0) && Shaped(cfg, st0) && a < cfg.N() && b < cfg.N()
    requires Can(cfg, st0, UserPut(a, b, put)) && Runs(cfg, Do(cfg, st0, UserPut(a, b, put)), after, st)
    requires st0[a].entered <= k && |st| == cfg.N() && Covered(cfg, a, b) && k < Left(st[b])
    ensures Runs(cfg, Init(cfg), acts, st) && Shaped(cfg, st) && k < |st[a].snaps| && b < |st0[a].handed|
    ensures |st[a].snaps[k]| == cfg.N() && |st0[a].handed[b]| < |st[a].snaps[k][b]|
    ensures st[a].snaps[k][b][|st0[a].handed[b]|] == put
  {
    var act := UserPut(a, b, put);
    var st1 := Do(cfg, st0, act);
    hide *;
    InitInv(cfg);
    RunKeeps(cfg, Init(cfg), before, st0);
    Calls(cfg, st0, a);
    StepKeeps(cfg, st0, act);
    UserPutHands(cfg, st0, a, b, put);
    Calls(cfg, st1, a);
    SnapsLater(cfg, st1, after, st, a, b);
    RunKeeps(cfg, st1, after, st);
    InvShaped(cfg, st);
    DataBeforeBarrier(cfg, st, a, b, k);
    RunsCons(cfg, st0, act, after, st);
    acts := RunsAppend(cfg, Init(cfg), before, st0, [act] + after, st);
  }

  lemma Calls(cfg: Config, st: State, p: nat)
    requires Inv(cfg, st) && p < cfg.N()
    ensures |st| == cfg.N() && |st[p].snaps| == st[p].entered && |st[p].handed| == cfg.N()
  {
    assert PeOk(cfg.N(), p, st[p]) && PeShaped(cfg, st[p]);
  }

  lemma UserPutHands(cfg: Config, st: State, a: nat, b: nat, put: Put)
    requires Inv(cfg, st) && a < cfg.N() && b < cfg.N() && Can(cfg, st, UserPut(a, b, put))
    ensures var st' := Do(cfg, st, UserPut(a, b, put));
            && |st'| == |st| == cfg.N() == |st[a].handed| == |st'[a].handed|
            && st'[a].handed[b] == st[a].handed[b] + [put] && st'[a].entered == st[a].entered
  {
    Calls(cfg, st, a);
    UserPutDoes(cfg, st, a, b, put);
    hide Inv, Do, Can;
    assert Handed(st[a], Do(cfg, st, UserPut(a, b, put))[a], b, put);
  }

  /** After the same allocation calls on a and b, the user of a puts bytes through a pointer into
      its block j, and both go through a barrier. Once b has left it, the same range of b's own block
      j holds the bytes, provided no other put for b but earlier ones of a overlaps the range. And of
      all bytes of b, the put covers none outside its block j. */
  lemma PutArrives(cfg: Config, mine: HeapLayout.Heap, theirs: HeapLayout.Heap, base1: nat, base2: nat,
                   calls: seq<Call>, before: seq<Action>, st0: State, after: seq<Action>, st: State,
                   a: nat, b: nat, k: nat, j: nat, dest: nat, bytes: seq<nat>)
    requires LaidOut(mine, base1, cfg.size, calls) && LaidOut(theirs, base2, cfg.size, calls)
    requires PointsInto(mine, j, dest, |bytes|) && Offset(mine, dest) >= 0
    requires cfg.N() > 0 && Runs(cfg, Init(cfg), before, st0) && Shaped(cfg, st0) && a < cfg.N() && b < cfg.N()
    requires var put := UserPut(a, b, Data(Offset(mine, dest), bytes));
             Can(cfg, st0, put) && Runs(cfg, Do(cfg, st0, put), after, st)
    requires st0[a].entered <= k && |st| == cfg.N() && Covered(cfg, a, b) && k < Left(st[b])
    requires forall x: nat :: Covers(Data(Offset(mine, dest), bytes), x) ==> OnlyUpTo(st, a, b, |st0[a].handed[b]|, x)
    ensures j < |theirs.blocks| && Holds(theirs, j, dest - mine.blocks[j].start, st[b].heap, bytes)
    ensures forall x: nat :: Covers(Data(Offset(mine, dest), bytes), x) ==> InBlock(theirs, j, x)
    ensures forall x: nat, i :: 0 <= i < |theirs.blocks| && i != j && InBlock(theirs, i, x) ==>
              !Covers(Data(Offset(mine, dest), bytes), x)
  {
    var acts := PutInSnapshot(cfg, before, st0, after, st, a, b, k, Data(Offset(mine, dest), bytes));
    hide *;
    SnapshotArrives(cfg, mine, theirs, base1, base2, calls, acts, st, a, b, k, |st0[a].handed[b]|, j, dest, bytes);
  }
}

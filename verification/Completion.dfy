/** What a barrier says about data: the puts that are in memory when it is left. The puts a PE
    made before its call are those it had handed to comm_put by then: its blocking puts, and the
    nonblocking ones whose job had run. `NonblockingGuarantee` is about the others. */
module Completion {
  import opened Wrappers
  import opened Actions
  import opened Delivery
  import opened Conservation
  import opened Barrier
  import opened Memory
  import opened Writes

  // ---- Which puts have arrived ----

  /** Of two prefixes of one sequence, the one with more signals is the longer. */
  lemma MoreFlagsLonger(a: seq<Put>, b: seq<Put>, all: seq<Put>)
    requires a <= all && b <= all && Flags(a) < Flags(b)
    ensures a <= b
  {
    if |b| <= |a| {
      assert b <= a;
      FlagsPrefix(b, a);
    }
  }

  /** Once PE 0 has consumed the arrival of i for barrier call k, every put that i had handed to
      comm_put for PE 0 before that call is in PE 0's memory. */
  lemma DataBeforeArrival(cfg: Config, st: State, i: nat, k: nat)
    requires Inv(cfg, st) && 0 < i < |st| && k < Consumed(st[0], i)
    ensures k < |st[i].snaps| && |st[i].snaps[k]| == cfg.N() && st[i].snaps[k][0] <= st[0].got[i]
  {
    Chase(cfg, st, i);
    assert PeOk(cfg.N(), i, st[i]) && PeShaped(cfg, st[i]);
    assert SnapOk(i, k, st[i].snaps[k], st[i].handed);
    assert Signals(i, st[i], st[0]);
    GotIsPrefix(cfg, st, i, 0);
    MoreFlagsLonger(st[i].snaps[k][0], st[0].got[i], st[i].handed[0]);
  }

  /** Once i has left barrier call k, every put that PE 0 had handed to comm_put for i before that
      call is in i's memory. */
  lemma DataBeforeRelease(cfg: Config, st: State, i: nat, k: nat)
    requires Inv(cfg, st) && 0 < i < |st| && k < Left(st[i])
    ensures k < |st[0].snaps| && |st[0].snaps[k]| == cfg.N() && st[0].snaps[k][i] <= st[i].got[0]
  {
    Chase(cfg, st, i);
    assert PeOk(cfg.N(), 0, st[0]) && PeShaped(cfg, st[0]);
    assert SnapOk(0, k, st[0].snaps[k], st[0].handed);
    assert Signals(i, st[i], st[0]);
    GotIsPrefix(cfg, st, 0, i);
    MoreFlagsLonger(st[0].snaps[k][i], st[i].got[0], st[0].handed[i]);
  }

  /** Pairs for which leaving a barrier means that puts handed to comm_put before are complete. */
  predicate Covered(cfg: Config, a: nat, b: nat)
    requires a < cfg.N() && b < cfg.N()
  {
    a == 0 || b == 0 || cfg.Local(a, b)
  }

  /** When b has left barrier call k, everything a had handed to comm_put for b before its own
      call k is in b's memory. */
  lemma DataBeforeBarrier(cfg: Config, st: State, a: nat, b: nat, k: nat)
    requires Inv(cfg, st) && a < |st| && b < |st| && k < Left(st[b]) && Covered(cfg, a, b)
    ensures k < |st[a].snaps| && |st[a].snaps[k]| == cfg.N() && st[a].snaps[k][b] <= st[b].got[a]
  {
    assert PeOk(cfg.N(), a, st[a]) && PeOk(cfg.N(), b, st[b]) && PeOk(cfg.N(), 0, st[0]) && PeShaped(cfg, st[a]);
    if a > 0 { Chase(cfg, st, a); }
    if b > 0 { Chase(cfg, st, b); }
    assert SnapOk(a, k, st[a].snaps[k], st[a].handed);
    if cfg.Local(a, b) {
      assert Flow(cfg, a, b, st[a], st[b]);
    } else if a == 0 {
      DataBeforeRelease(cfg, st, b, k);
    } else {
      DataBeforeArrival(cfg, st, a, k);
    }
  }

  // ---- Bytes ----

  function ByteAt(put: Put, x: nat): nat
    requires Covers(put, x)
  {
    put.bytes[x - put.offset]
  }

  /** What the last of some puts to cover a byte wrote there. */
  function Last(puts: seq<Put>, x: nat): Option<nat>
  {
    if puts == [] then None
    else
      var put := puts[|puts| - 1];
      if Covers(put, x) then Some(ByteAt(put, x)) else Last(puts[..|puts| - 1], x)
  }

  /** A byte is untouched, or holds what some PE's last put to it wrote. */
  ghost predicate ByteOk(pe: Pe, x: nat)
    requires x < |pe.heap|
  {
    || (pe.heap[x] == 0 && forall a :: 0 <= a < |pe.got| ==> Last(pe.got[a], x) == None)
    || (exists a :: 0 <= a < |pe.got| && Last(pe.got[a], x) == Some(pe.heap[x]))
  }

  ghost predicate MemoryOk(pe: Pe)
  {
    forall x :: 0 <= x < |pe.heap| ==> ByteOk(pe, x)
  }

  ghost predicate MemoriesOk(st: State)
  {
    forall p :: 0 <= p < |st| ==> MemoryOk(st[p])
  }

  lemma GetsByteOk(pe: Pe, pe': Pe, origin: nat, put: Put, x: nat)
    requires Gets(pe, pe', origin, put) && x < |pe.heap| && ByteOk(pe, x)
    ensures |pe'.heap| == |pe.heap| && ByteOk(pe', x)
  {
    GetsHeap(pe, pe', origin, put, x);
    GetsLast(pe, pe', origin, put, x);
    hide Gets, Last, Covers;
    if Covers(put, x) {
      assert Last(pe'.got[origin], x) == Some(pe'.heap[x]);
    } else if a :| 0 <= a < |pe.got| && Last(pe.got[a], x) == Some(pe.heap[x]) {
      assert Last(pe'.got[a], x) == Some(pe'.heap[x]);
    }
  }

  lemma GetsHeap(pe: Pe, pe': Pe, origin: nat, put: Put, x: nat)
    requires Gets(pe, pe', origin, put) && x < |pe.heap|
    ensures |pe'.heap| == |pe.heap|
    ensures pe'.heap[x] == if Covers(put, x) then ByteAt(put, x) else pe.heap[x]
  {
    if put.Data? { MemcpyExactly(pe.heap, put.offset, put.bytes); }
  }

  lemma GetsLast(pe: Pe, pe': Pe, origin: nat, put: Put, x: nat)
    requires Gets(pe, pe', origin, put)
    ensures |pe'.got| == |pe.got| && origin < |pe.got|
    ensures Covers(put, x) ==> Last(pe'.got[origin], x) == Some(ByteAt(put, x))
    ensures !Covers(put, x) ==> forall a :: 0 <= a < |pe.got| ==> Last(pe'.got[a], x) == Last(pe.got[a], x)
  {
    LastAppend(pe.got[origin], put, x);
  }

  lemma LastAppend(puts: seq<Put>, put: Put, x: nat)
    ensures Last(puts + [put], x) == if Covers(put, x) then Some(ByteAt(put, x)) else Last(puts, x)
  {
    assert (puts + [put])[..|puts|] == puts;
  }

  /** The last write is one of the writes. */
  lemma {:induction false} LastIsPut(puts: seq<Put>, x: nat) returns (j: nat)
    requires Last(puts, x).Some?
    ensures j < |puts| && Covers(puts[j], x) && ByteAt(puts[j], x) == Last(puts, x).value
    ensures forall k :: j < k < |puts| ==> !Covers(puts[k], x)
  {
    j := |puts| - 1;
    if !Covers(puts[j], x) {
      j := LastIsPut(puts[..j], x);
    }
  }

  /** Later puts decide only where they cover. */
  lemma {:induction false} LastPrefix(some: seq<Put>, all: seq<Put>, x: nat)
    requires some <= all
    requires forall j :: |some| <= j < |all| ==> !Covers(all[j], x)
    ensures Last(all, x) == Last(some, x)
    decreases |all|
  {
    if |some| == |all| {
      assert some == all;
    } else {
      LastPrefix(some, all[..|all| - 1], x);
    }
  }

  lemma {:induction false} StillCovered(some: seq<Put>, all: seq<Put>, x: nat)
    requires some <= all && Last(some, x).Some?
    ensures Last(all, x).Some?
    decreases |all|
  {
    if |some| == |all| {
      assert some == all;
    } else {
      StillCovered(some, all[..|all| - 1], x);
    }
  }

  lemma GetsMemoryOk(pe: Pe, pe': Pe, origin: nat, put: Put)
    requires Gets(pe, pe', origin, put) && MemoryOk(pe)
    ensures MemoryOk(pe')
  {
    forall x | 0 <= x < |pe'.heap| ensures ByteOk(pe', x) {
      assert |pe'.heap| == |pe.heap|;
      GetsByteOk(pe, pe', origin, put, x);
    }
  }

  lemma SameMemoryOk(pe: Pe, pe': Pe)
    requires MemoryOk(pe) && SameMemory(pe, pe')
    ensures MemoryOk(pe')
  {
    forall x | 0 <= x < |pe'.heap| ensures ByteOk(pe', x) { assert ByteOk(pe, x); }
  }

  /** Every action keeps this of every memory. */
  lemma MemoriesKept(cfg: Config, st: State, act: Action)
    requires Inv(cfg, st) && MemoriesOk(st) && Can(cfg, st, act)
    ensures MemoriesOk(Do(cfg, st, act))
  {
    hide Gets, SameMemory, MemoryOk, Do, Can, Flow, PeOk, Signals;
    EveryActionWritesOnce(cfg, st, act);
    var w := WriteOf(cfg, st, act);
    var st' := Do(cfg, st, act);
    forall q | 0 <= q < |st'| ensures MemoryOk(st'[q]) {
      if w.Into? && q == w.q {
        GetsMemoryOk(st[q], st'[q], w.origin, w.put);
      } else {
        SameMemoryOk(st[q], st'[q]);
      }
    }
  }

  lemma {:induction false} RunMemories(cfg: Config, from: State, acts: seq<Action>, st: State)
    requires Inv(cfg, from) && MemoriesOk(from) && Runs(cfg, from, acts, st)
    ensures Inv(cfg, st) && MemoriesOk(st)
    decreases |acts|
  {
    if acts != [] {
      MemoriesKept(cfg, from, acts[0]);
      StepKeeps(cfg, from, acts[0]);
      RunMemories(cfg, Do(cfg, from, acts[0]), acts[1..], st);
    }
  }

  /** Whatever the interleaving and whoever else writes: when b has left barrier call k, a byte
      that a put to b before its own call k holds what some put wrote, and that put is not stale:
      if its PE is covered too, then that PE put nothing later there before its own call k. */
  lemma NeverStale(cfg: Config, acts: seq<Action>, st: State, a: nat, b: nat, k: nat, x: nat) returns (c: nat, j: nat)
    requires cfg.N() > 0 && Runs(cfg, Init(cfg), acts, st) && |st| == cfg.N() && Shaped(cfg, st)
    requires a < cfg.N() && b < cfg.N() && Covered(cfg, a, b) && k < Left(st[b]) && k < |st[a].snaps|
    requires Last(st[a].snaps[k][b], x).Some? && x < cfg.size
    ensures c < cfg.N() && j < |st[c].handed[b]| && Covers(st[c].handed[b][j], x)
    ensures st[b].heap[x] == ByteAt(st[c].handed[b][j], x)
    ensures Covered(cfg, c, b) ==>
              && k < |st[c].snaps| && st[c].snaps[k][b] <= st[c].handed[b]
              && forall i :: j < i < |st[c].snaps[k][b]| ==> !Covers(st[c].snaps[k][b][i], x)
  {
    InitInv(cfg);
    InitMemories(cfg);
    RunMemories(cfg, Init(cfg), acts, st);
    DataBeforeBarrier(cfg, st, a, b, k);
    StillCovered(st[a].snaps[k][b], st[b].got[a], x);
    c, j := LastWriter(cfg, st, a, b, x);
    if Covered(cfg, c, b) {
      DataBeforeBarrier(cfg, st, c, b, k);
      GotIsPrefix(cfg, st, c, b);
      forall i | j < i < |st[c].snaps[k][b]| ensures !Covers(st[c].snaps[k][b][i], x) {
        assert st[c].snaps[k][b][i] == st[b].got[c][i];
      }
    }
  }

  /** When b has left barrier call k, a byte of b holds what a's last put to it before a's own
      call k wrote, however often a wrote there before, provided a's later puts and the puts of
      other PEs to that byte, if there are any, carry the same value. */
  lemma VisibleAfterBarrier(cfg: Config, acts: seq<Action>, st: State, a: nat, b: nat, k: nat, x: nat, v: nat)
    requires cfg.N() > 0 && Runs(cfg, Init(cfg), acts, st) && |st| == cfg.N() && Shaped(cfg, st)
    requires a < cfg.N() && b < cfg.N() && Covered(cfg, a, b) && k < Left(st[b]) && k < |st[a].snaps|
    requires Last(st[a].snaps[k][b], x) == Some(v) && x < cfg.size
    requires forall c, j :: 0 <= c < cfg.N() && 0 <= j < |st[c].handed[b]| && Covers(st[c].handed[b][j], x) ==>
               (c == a && j < |st[a].snaps[k][b]|) || ByteAt(st[c].handed[b][j], x) == v
    ensures st[b].heap[x] == v
  {
    var c, j := NeverStale(cfg, acts, st, a, b, k, x);
    var snap := st[a].snaps[k][b];
    hide *;
    if c == a && j < |snap| {
      assert snap[j] == st[a].handed[b][j];
      LastFrom(snap, x, j);
    }
  }

  lemma LastFrom(puts: seq<Put>, x: nat, j: nat)
    requires j < |puts| && Covers(puts[j], x) && forall i :: j < i < |puts| ==> !Covers(puts[i], x)
    ensures Last(puts, x) == Some(ByteAt(puts[j], x))
  {
    assert puts[..j + 1][..j] == puts[..j];
    LastPrefix(puts[..j + 1], puts, x);
  }

  lemma InitMemories(cfg: Config)
    ensures MemoriesOk(Init(cfg))
  {}

  /** A byte that some put covers holds what the last delivered put of some PE wrote. */
  lemma LastWriter(cfg: Config, st: State, a: nat, b: nat, x: nat) returns (c: nat, j: nat)
    requires Inv(cfg, st) && a < |st| && b < |st| && x < |st[b].heap| && MemoryOk(st[b])
    requires |st[b].got| == |st| && Last(st[b].got[a], x).Some?
    ensures c < |st| && |st[c].handed| == |st| && j < |st[b].got[c]| <= |st[c].handed[b]|
    ensures st[b].got[c][j] == st[c].handed[b][j] && Covers(st[b].got[c][j], x)
    ensures st[b].heap[x] == ByteAt(st[b].got[c][j], x)
    ensures Last(st[b].got[c], x) == Some(st[b].heap[x])
    ensures forall i :: j < i < |st[b].got[c]| ==> !Covers(st[b].got[c][i], x)
  {
    assert ByteOk(st[b], x);
    c :| 0 <= c < |st[b].got| && Last(st[b].got[c], x) == Some(st[b].heap[x]);
    assert PeShaped(cfg, st[c]);
    GotIsPrefix(cfg, st, c, b);
    j := LastIsPut(st[b].got[c], x);
  }

  /** The common case: nobody but a puts to the byte, and a has not put to it again since. */
  lemma OwnBufferAfterBarrier(cfg: Config, acts: seq<Action>, st: State, a: nat, b: nat, k: nat, x: nat)
    requires cfg.N() > 0 && Runs(cfg, Init(cfg), acts, st) && |st| == cfg.N() && Shaped(cfg, st)
    requires a < cfg.N() && b < cfg.N() && Covered(cfg, a, b) && k < Left(st[b]) && k < |st[a].snaps|
    requires Last(st[a].snaps[k][b], x).Some? && x < cfg.size
    requires forall c, j :: 0 <= c < cfg.N() && c != a && 0 <= j < |st[c].handed[b]| ==> !Covers(st[c].handed[b][j], x)
    requires forall j :: |st[a].snaps[k][b]| <= j < |st[a].handed[b]| ==> !Covers(st[a].handed[b][j], x)
    ensures Some(st[b].heap[x]) == Last(st[a].snaps[k][b], x)
  {
    VisibleAfterBarrier(cfg, acts, st, a, b, k, x, Last(st[a].snaps[k][b], x).value);
  }
}

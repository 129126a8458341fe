/** The static shape of remote wire-up: which PE accepts, which PE connects, and in
    which order, as decided by parity and powers of two (src/comm/comm_remote.c). */
module Wiring {

  /** The host each PE runs on; two PEs are local to each other when the hosts agree. */
  datatype Placement = Placement(hosts: seq<nat>) {
    function N(): nat { |hosts| }

    predicate Remote(a: nat, b: nat)
      requires a < N() && b < N()
    {
      hosts[a] != hosts[b]
    }
  }

  /** One blocking operation of wire-up: accept one connection (the loop variable stood
      at `counted`, but any client may be the one accepted), or connect to `server`. */
  datatype Op =
    | Accept(level: nat, counted: nat)
    | Connect(level: nat, server: nat)

  // ---- Arithmetic of levels ----

  function Pow2(k: nat): (r: nat)
    ensures r >= 1
  {
    if k == 0 then 1 else 2 * Pow2(k - 1)
  }

  /** The least number of doublings that reaches n, which is ceil(log2(n)) for n >= 1. */
  function Levels(n: nat): (r: nat)
    ensures Pow2(r) >= n
    ensures forall k: nat :: k < r ==> Pow2(k) < n
  {
    LevelsFrom(n, 0)
  }

  function LevelsFrom(n: nat, k: nat): (r: nat)
    requires forall j: nat :: j < k ==> Pow2(j) < n
    ensures Pow2(r) >= n
    ensures forall j: nat :: j < r ==> Pow2(j) < n
    decreases n - Pow2(k)
  {
    if Pow2(k) >= n then k else LevelsFrom(n, k + 1)
  }

  lemma {:induction false} Pow2Monotone(j: nat, k: nat)
    requires j <= k
    ensures Pow2(j) <= Pow2(k)
  {
    if j < k { Pow2Monotone(j, k - 1); }
  }

  lemma MulAtLeast(m: int, k: int)
    requires m >= 0
    ensures k >= 1 ==> m * k >= m
    ensures k <= -1 ==> m * k <= -m
  {
    if k >= 1 {
      assert m * k == m + m * (k - 1);
    } else if k <= -1 {
      assert m * k == -m + m * (k + 1);
    }
  }

  lemma DivModUnique(x: nat, m: nat, q: nat, r: nat)
    requires 0 <= r < m && x == m * q + r
    ensures x / m == q && x % m == r
  {
    var q', r' := x / m, x % m;
    assert m * (q - q') == r' - r by {
      assert x == m * q' + r';
      assert m * (q - q') == m * q - m * q';
    }
    MulAtLeast(m, q - q');
  }

  /** Doubling a modulus either keeps the residue or adds the old modulus to it. */
  lemma ModDouble(x: nat, m: nat)
    requires m > 0
    ensures x % (2 * m) == x % m || x % (2 * m) == x % m + m
  {
    var q, r := QuotientAndRest(x, 2 * m);
    ResidueOfHalf(x, m, q, r);
  }

  lemma QuotientAndRest(x: nat, n: nat) returns (q: nat, r: nat)
    requires n > 0
    ensures r < n && x == n * q + r && x % n == r
  {
    q, r := x / n, x % n;
  }

  lemma ResidueOfHalf(x: nat, m: nat, q: nat, r: nat)
    requires r < 2 * m && x == (2 * m) * q + r
    ensures x % m == if r < m then r else r - m
  {
    HalfTurns(m, q);
    if r < m {
      DivModUnique(x, m, 2 * q, r);
    } else {
      DivModUnique(x, m, 2 * q + 1, r - m);
    }
  }

  lemma HalfTurns(m: int, q: int)
    ensures (2 * m) * q == m * (2 * q) && (2 * m) * q + m == m * (2 * q + 1)
  {}

  lemma ModShift(i: nat, x: nat, m: nat)
    requires m > 0 && i < m && i <= x
    ensures (x - i) % m == 0 <==> x % m == i
  {
    if (x - i) % m == 0 {
      var q := (x - i) / m;
      assert x - i == m * q;
      DivModUnique(x, m, q, i);
    }
    if x % m == i {
      var q := x / m;
      assert x == m * q + i;
      DivModUnique(x - i, m, q, 0);
    }
  }

  // ---- Roles and loops ----

  function Stride(level: nat): nat { Pow2(level + 1) }

  /** The branch taken by the level loop. */
  predicate IsServer(me: nat, level: nat)
  {
    || (me % 2 == 0 && me % Stride(level) == 0)
    || (level > 0 && me % 2 == 1 && me % Stride(level) == 1)
  }

  /** The level loop reaches `level`: no earlier level set the `complete` flag. */
  predicate Reaches(me: nat, level: nat)
  {
    forall l: nat :: 0 < l < level ==> IsServer(me, l)
  }

  function ClientStart(me: nat, level: nat): nat
  {
    if Stride(level) > 2 && me % 2 == 1 then 1 else 0
  }

  function ServerStart(me: nat, level: nat): nat
  {
    me % 2 + Stride(level) / 2
  }

  /** The remote PEs visited by a stride loop that stands at i. */
  function Walk(pl: Placement, me: nat, i: nat, stride: nat): seq<nat>
    requires me < pl.N() && stride > 0
    decreases pl.N() - i
  {
    if i >= pl.N() then []
    else (if pl.Remote(me, i) then [i] else []) + Walk(pl, me, i + stride, stride)
  }

  function Accepts(level: nat, pes: seq<nat>): seq<Op>
  {
    seq(|pes|, k requires 0 <= k < |pes| => Accept(level, pes[k]))
  }

  function Connects(level: nat, pes: seq<nat>): seq<Op>
  {
    seq(|pes|, k requires 0 <= k < |pes| => Connect(level, pes[k]))
  }

  function OpsAt(pl: Placement, me: nat, level: nat): seq<Op>
    requires me < pl.N()
  {
    if IsServer(me, level)
    then Accepts(level, Walk(pl, me, ServerStart(me, level), Stride(level)))
    else Connects(level, Walk(pl, me, ClientStart(me, level), Stride(level)))
  }

  /** What is left to do when the level loop stands at `level` and is not complete. */
  function ProgramFrom(pl: Placement, me: nat, level: nat): seq<Op>
    requires me < pl.N()
    decreases Levels(pl.N()) - level
  {
    if level >= Levels(pl.N()) then []
    else if !IsServer(me, level) && level > 0 then OpsAt(pl, me, level)
    else OpsAt(pl, me, level) + ProgramFrom(pl, me, level + 1)
  }

  /** Every operation PE `me` performs during wire-up, in order. */
  function Program(pl: Placement, me: nat): seq<Op>
    requires me < pl.N()
  {
    ProgramFrom(pl, me, 0)
  }

  // ---- The loops themselves ----

  /** A stride loop visits one PE, or skips a local one, and goes on. */
  lemma WalkStep(pl: Placement, me: nat, i: nat, stride: nat)
    requires me < pl.N() && stride > 0
    ensures i >= pl.N() ==> Walk(pl, me, i, stride) == []
    ensures i < pl.N() && pl.Remote(me, i) ==> Walk(pl, me, i, stride) == [i] + Walk(pl, me, i + stride, stride)
    ensures i < pl.N() && !pl.Remote(me, i) ==> Walk(pl, me, i, stride) == Walk(pl, me, i + stride, stride)
  {
    if i < pl.N() {
      assert [] + Walk(pl, me, i + stride, stride) == Walk(pl, me, i + stride, stride);
    }
  }

  lemma OneMoreOp(level: nat, pes: seq<nat>, pe: nat)
    ensures Connects(level, pes + [pe]) == Connects(level, pes) + [Connect(level, pe)]
    ensures Accepts(level, pes + [pe]) == Accepts(level, pes) + [Accept(level, pe)]
  {}

  method WireClient(pl: Placement, me: nat, level: nat) returns (ops: seq<Op>)
    requires me < pl.N()
    ensures ops == Connects(level, Walk(pl, me, ClientStart(me, level), Stride(level)))
  {
    ops := [];
    var stride := Stride(level);
    var pe := if stride > 2 && me % 2 == 1 then 1 else 0;
    ghost var done: seq<nat> := [];
    assert pe == ClientStart(me, level) && Connects(level, []) == [];
    ghost var all := Walk(pl, me, pe, stride);
    hide Walk, Connects, Pow2, ClientStart, Stride;
    while pe < pl.N()
      invariant all == done + Walk(pl, me, pe, stride)
      invariant ops == Connects(level, done)
    {
      WalkStep(pl, me, pe, stride);
      if pl.Remote(me, pe) {
        OneMoreOp(level, done, pe);
        AppendAssociative(done, [pe], Walk(pl, me, pe + stride, stride));
        ops := ops + [Connect(level, pe)];
        done := done + [pe];
      }
      pe := pe + stride;
    }
    WalkStep(pl, me, pe, stride);
    assert all == done;
  }

  method WireServer(pl: Placement, me: nat, level: nat) returns (ops: seq<Op>)
    requires me < pl.N()
    ensures ops == Accepts(level, Walk(pl, me, ServerStart(me, level), Stride(level)))
  {
    ops := [];
    var stride := Stride(level);
    var i := me % 2 + stride / 2;
    ghost var done: seq<nat> := [];
    assert i == ServerStart(me, level) && Accepts(level, []) == [];
    ghost var all := Walk(pl, me, i, stride);
    hide Walk, Accepts, Pow2, ServerStart, Stride;
    while i < pl.N()
      invariant all == done + Walk(pl, me, i, stride)
      invariant ops == Accepts(level, done)
    {
      WalkStep(pl, me, i, stride);
      if pl.Remote(me, i) {
        OneMoreOp(level, done, i);
        AppendAssociative(done, [i], Walk(pl, me, i + stride, stride));
        ops := ops + [Accept(level, i)];
        done := done + [i];
      }
      i := i + stride;
    }
    WalkStep(pl, me, i, stride);
    assert all == done;
  }

  /** The level loop of wire-up with its `complete` flag. */
  method WireUp(pl: Placement, me: nat) returns (ops: seq<Op>)
    requires me < pl.N()
    ensures ops == Program(pl, me)
  {
    var complete := false;
    var levels := Levels(pl.N());
    var level := 0;
    ops := [];
    ghost var todo := Program(pl, me);
    while level < levels && !complete
      invariant level <= levels
      invariant todo == if complete then [] else ProgramFrom(pl, me, level)
      invariant Program(pl, me) == ops + todo
    {
      var part: seq<Op>;
      if IsServer(me, level) {
        part := WireServer(pl, me, level);
      } else {
        if level > 0 {
          complete := true;
        }
        part := WireClient(pl, me, level);
      }
      ghost var rest := if complete then [] else ProgramFrom(pl, me, level + 1);
      AppendAssociative(ops, part, rest);
      ops, todo := ops + part, rest;
      level := level + 1;
    }
  }

  lemma AppendAssociative<T>(a: seq<T>, b: seq<T>, c: seq<T>)
    ensures a + (b + c) == (a + b) + c
  {}
}

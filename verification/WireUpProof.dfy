/** The programs that the wire-up loops produce meet the needs of the handshake protocol,
    so wire-up of any job on any placement always completes and wires exactly the pairs
    that Topology describes. */
module WireUpProof {
  import opened Wiring
  import opened Topology
  import opened Handshake
  import opened HandshakeSafety
  import opened HandshakeLive

  // ---- Operations of one level ----

  lemma OpsAtMembers(pl: Placement, me: nat, level: nat, op: Op)
    requires me < pl.N()
    ensures op in OpsAt(pl, me, level) <==>
            && op.level == level
            && (if IsServer(me, level)
                then op.Accept? && op.counted in Walk(pl, me, ServerStart(me, level), Stride(level))
                else op.Connect? && op.server in Walk(pl, me, ClientStart(me, level), Stride(level)))
  {
    var pes := Walk(pl, me, if IsServer(me, level) then ServerStart(me, level) else ClientStart(me, level),
        Stride(level));
    var ops := OpsAt(pl, me, level);
    assert |ops| == |pes|;
    if op.level == level && Peer(op) in pes && op.Accept? == IsServer(me, level) {
      var k :| 0 <= k < |pes| && pes[k] == Peer(op);
      assert ops[k] == op;
    }
  }

  lemma ProgramMembers(pl: Placement, me: nat, level: nat, op: Op)
    requires me < pl.N() && Reaches(me, level)
    ensures op in ProgramFrom(pl, me, level) <==>
            level <= op.level < Levels(pl.N()) && Reaches(me, op.level) && op in OpsAt(pl, me, op.level)
    decreases Levels(pl.N()) - level
  {
    hide OpsAt, Levels;
    if level < Levels(pl.N()) {
      OpsAtMembers(pl, me, level, op);
      if IsServer(me, level) || level == 0 {
        ProgramMembers(pl, me, level + 1, op);
      } else {
        assert op.level > level ==> !Reaches(me, op.level);
      }
    }
  }

  /** PE c's program connects to s at a level exactly when its loops do. */
  lemma ConnectInProgram(pl: Placement, c: nat, s: nat, level: nat)
    requires c < pl.N() && s < pl.N()
    ensures Connect(level, s) in Program(pl, c) <==> ConnectsTo(pl, c, s, level)
  {
    ProgramMembers(pl, c, 0, Connect(level, s));
    OpsAtMembers(pl, c, level, Connect(level, s));
  }

  lemma AcceptInProgram(pl: Placement, s: nat, c: nat, level: nat)
    requires c < pl.N() && s < pl.N()
    ensures Accept(level, c) in Program(pl, s) <==> Counts(pl, s, c, level)
  {
    ProgramMembers(pl, s, 0, Accept(level, c));
    OpsAtMembers(pl, s, level, Accept(level, c));
  }

  /** Peers of an operation are PEs of the job, on another host. */
  lemma ProgramPeers(pl: Placement, me: nat, op: Op)
    requires me < pl.N() && op in Program(pl, me)
    ensures Peer(op) < pl.N() && pl.Remote(me, Peer(op)) && op.level < Levels(pl.N())
    ensures op.Accept? <==> IsServer(me, op.level)
  {
    ProgramMembers(pl, me, 0, op);
    OpsAtMembers(pl, me, op.level, op);
    var start := if op.Accept? then ServerStart(me, op.level) else ClientStart(me, op.level);
    WalkMembers(pl, me, start, Stride(op.level), Peer(op));
  }

  /** The calls of a program, in numbers: it connects to, and accepts, exactly these PEs. */
  lemma ProgramExactly(pl: Placement, me: nat, op: Op)
    requires me < pl.N()
    ensures op in Program(pl, me) <==>
              && Peer(op) < pl.N()
              && if op.Connect? then MeetsAt(pl, me, op.server, op.level) else MeetsAt(pl, op.counted, me, op.level)
  {
    ProgramMembers(pl, me, 0, op);
    OpsAtMembers(pl, me, op.level, op);
    if op in Program(pl, me) { ProgramPeers(pl, me, op); }
    if Peer(op) < pl.N() {
      if op.Connect? {
        ConnectsExactly(pl, me, op.server, op.level);
      } else {
        ConnectsExactly(pl, op.counted, me, op.level);
        ConnectMatchesAccept(pl, op.counted, me, op.level);
      }
    }
    hide Walk, Levels, IsServer, MeetsAt;
  }

  // ---- Order within a program ----

  ghost predicate Sooner(a: Op, b: Op)
  {
    a.level < b.level || (a.level == b.level && Peer(a) < Peer(b))
  }

  ghost predicate InOrder(ops: seq<Op>)
  {
    forall i, j :: 0 <= i < j < |ops| ==> Sooner(ops[i], ops[j])
  }

  ghost predicate AscendsFrom(w: seq<nat>, low: nat)
  {
    w == [] || (low <= w[0] && AscendsFrom(w[1..], w[0] + 1))
  }

  lemma {:induction false} WalkAscends(pl: Placement, me: nat, i: nat, stride: nat)
    requires me < pl.N() && stride > 0
    ensures AscendsFrom(Walk(pl, me, i, stride), i)
    decreases pl.N() - i
  {
    if i < pl.N() {
      WalkAscends(pl, me, i + stride, stride);
      PrependAscends(i, Walk(pl, me, i + stride, stride), i + stride);
    }
  }

  lemma PrependAscends(i: nat, rest: seq<nat>, low: nat)
    requires i < low && AscendsFrom(rest, low)
    ensures AscendsFrom([i] + rest, i) && AscendsFrom([] + rest, i)
  {
    assert [] + rest == rest && ([i] + rest)[1..] == rest;
  }

  lemma {:induction false} AscendsPair(w: seq<nat>, low: nat, j: nat, k: nat)
    requires AscendsFrom(w, low) && j < k < |w|
    ensures low <= w[j] < w[k]
    decreases |w|
  {
    if j == 0 {
      AscendsAt(w[1..], w[0] + 1, k - 1);
    } else {
      AscendsPair(w[1..], w[0] + 1, j - 1, k - 1);
    }
  }

  lemma {:induction false} AscendsAt(w: seq<nat>, low: nat, k: nat)
    requires AscendsFrom(w, low) && k < |w|
    ensures low <= w[k]
    decreases |w|
  {
    if k > 0 { AscendsAt(w[1..], w[0] + 1, k - 1); }
  }

  lemma OpsAtInOrder(pl: Placement, me: nat, level: nat)
    requires me < pl.N()
    ensures InOrder(OpsAt(pl, me, level))
    ensures forall k :: 0 <= k < |OpsAt(pl, me, level)| ==> OpsAt(pl, me, level)[k].level == level
  {
    var start := if IsServer(me, level) then ServerStart(me, level) else ClientStart(me, level);
    var pes, ops := Walk(pl, me, start, Stride(level)), OpsAt(pl, me, level);
    WalkAscends(pl, me, start, Stride(level));
    assert |ops| == |pes| && forall k :: 0 <= k < |ops| ==> Peer(ops[k]) == pes[k] && ops[k].level == level;
    forall i, j | 0 <= i < j < |ops| ensures Sooner(ops[i], ops[j]) {
      AscendsPair(pes, start, i, j);
    }
  }

  lemma AppendInOrder(a: seq<Op>, b: seq<Op>, level: nat)
    requires InOrder(a) && InOrder(b)
    requires forall k :: 0 <= k < |a| ==> a[k].level == level
    requires forall k :: 0 <= k < |b| ==> b[k].level > level
    ensures InOrder(a + b)
  {}

  lemma EmptyInOrder()
    ensures InOrder([])
  {}

  lemma {:induction false} ProgramInOrder(pl: Placement, me: nat, level: nat)
    requires me < pl.N() && Reaches(me, level)
    ensures InOrder(ProgramFrom(pl, me, level))
    decreases Levels(pl.N()) - level
  {
    hide OpsAt, Levels, InOrder;
    EmptyInOrder();
    if level < Levels(pl.N()) {
      var here := OpsAt(pl, me, level);
      OpsAtInOrder(pl, me, level);
      if IsServer(me, level) || level == 0 {
        var rest := ProgramFrom(pl, me, level + 1);
        ProgramInOrder(pl, me, level + 1);
        forall k | 0 <= k < |rest| ensures rest[k].level > level {
          ProgramMembers(pl, me, level + 1, rest[k]);
        }
        AppendInOrder(here, rest, level);
      }
    }
  }

  // ---- The job ----

  /** Each PE keeps different slots for different PEs of other hosts. */
  ghost predicate SlotsInjective(pl: Placement, slot: seq<seq<nat>>)
  {
    && |slot| == pl.N()
    && (forall p :: 0 <= p < pl.N() ==> |slot[p]| == pl.N())
    && (forall p, a, b ::
          0 <= p < pl.N() && 0 <= a < pl.N() && 0 <= b < pl.N() && pl.Remote(p, a) && pl.Remote(p, b) && a != b ==>
            slot[p][a] != slot[p][b])
  }

  function JobOf(pl: Placement, slot: seq<seq<nat>>): Job
  {
    Job(seq(pl.N(), p requires 0 <= p < pl.N() => Program(pl, p)), slot)
  }

  lemma JobInRange(pl: Placement, slot: seq<seq<nat>>)
    requires SlotsInjective(pl, slot)
    ensures InRange(JobOf(pl, slot))
  {
    var job := JobOf(pl, slot);
    forall p, i | 0 <= p < |job.progs| && 0 <= i < |job.progs[p]|
      ensures Peer(job.progs[p][i]) < |job.progs| && Peer(job.progs[p][i]) != p
    {
      ProgramPeers(pl, p, job.progs[p][i]);
    }
  }

  lemma JobPaired(pl: Placement, slot: seq<seq<nat>>)
    ensures Paired(JobOf(pl, slot))
  {
    var job := JobOf(pl, slot);
    forall c: nat, s: nat, level: nat | c < |job.progs| && s < |job.progs|
      ensures Accept(level, c) in job.progs[s] <==> Connect(level, s) in job.progs[c]
    {
      AcceptInProgram(pl, s, c, level);
      ConnectInProgram(pl, c, s, level);
      ConnectMatchesAccept(pl, c, s, level);
    }
  }

  /** An operation with peer q means one of the two connects to the other at that level. */
  lemma OpMeets(pl: Placement, me: nat, op: Op)
    requires me < pl.N() && op in Program(pl, me)
    ensures Peer(op) < pl.N()
    ensures op.Connect? ==> ConnectsTo(pl, me, Peer(op), op.level)
    ensures op.Accept? ==> ConnectsTo(pl, Peer(op), me, op.level)
  {
    ProgramPeers(pl, me, op);
    if op.Connect? {
      ConnectInProgram(pl, me, op.server, op.level);
    } else {
      AcceptInProgram(pl, me, op.counted, op.level);
      ConnectMatchesAccept(pl, op.counted, me, op.level);
    }
  }

  lemma MeetOnce(pl: Placement, me: nat, a: Op, b: Op)
    requires me < pl.N() && a in Program(pl, me) && b in Program(pl, me) && Sooner(a, b)
    ensures Peer(a) != Peer(b)
  {
    if Peer(a) == Peer(b) {
      OpMeets(pl, me, a);
      OpMeets(pl, me, b);
      var q := Peer(a);
      if a.Connect? { ConnectOnce(pl, me, q, a.level, b.level); } else { ConnectOnce(pl, q, me, a.level, b.level); }
    }
  }

  lemma JobOrdered(pl: Placement, slot: seq<seq<nat>>)
    ensures Once(JobOf(pl, slot)) && Ascending(JobOf(pl, slot))
  {
    var job := JobOf(pl, slot);
    forall p, i, j | 0 <= p < |job.progs| && 0 <= i < j < |job.progs[p]|
      ensures Peer(job.progs[p][i]) != Peer(job.progs[p][j])
      ensures job.progs[p][i].level <= job.progs[p][j].level
      ensures job.progs[p][i].Accept? && job.progs[p][j].Connect? ==> job.progs[p][i].level < job.progs[p][j].level
    {
      ProgramInOrder(pl, p, 0);
      assert Sooner(job.progs[p][i], job.progs[p][j]);
      MeetOnce(pl, p, job.progs[p][i], job.progs[p][j]);
      ProgramPeers(pl, p, job.progs[p][i]);
      ProgramPeers(pl, p, job.progs[p][j]);
    }
  }

  /** Somebody that c connects to is itself a client only later in the wait-for order. */
  lemma RankFalls(pl: Placement, c: nat, s: nat, t: nat, j: nat, k: nat)
    requires c < pl.N() && s < pl.N() && t < pl.N()
    requires ConnectsTo(pl, c, s, j) && ConnectsTo(pl, s, t, k)
    ensures Rank(Levels(pl.N()), s, k) < Rank(Levels(pl.N()), c, j)
  {
    ConnectParity(pl, c, s, j);
    ConnectParity(pl, s, t, k);
    if 0 < k < j { ClientLevelUnique(s, k, j); }
  }

  lemma JobRanked(pl: Placement, slot: seq<seq<nat>>)
    requires InRange(JobOf(pl, slot))
    ensures Ranked(JobOf(pl, slot), Levels(pl.N()))
  {
    var job := JobOf(pl, slot);
    forall c, j | 0 <= c < |job.progs| && 0 <= j < |job.progs[c]| ensures job.progs[c][j].level < Levels(pl.N()) {
      ProgramPeers(pl, c, job.progs[c][j]);
    }
    forall c: nat, j: nat, s: nat, i: nat | IsLink(job, c, j, s) && i < |job.progs[s]| && job.progs[s][i].Connect?
      ensures Rank(Levels(pl.N()), s, job.progs[s][i].level) < Rank(Levels(pl.N()), c, job.progs[c][j].level)
    {
      OpMeets(pl, c, job.progs[c][j]);
      OpMeets(pl, s, job.progs[s][i]);
      RankFalls(pl, c, s, job.progs[s][i].server, job.progs[c][j].level, job.progs[s][i].level);
    }
  }

  lemma JobSlots(pl: Placement, slot: seq<seq<nat>>)
    requires SlotsInjective(pl, slot)
    ensures InRange(JobOf(pl, slot)) && SlotsDistinct(JobOf(pl, slot))
  {
    JobInRange(pl, slot);
    JobOrdered(pl, slot);
    var job := JobOf(pl, slot);
    forall p, i, j | 0 <= p < |job.progs| && 0 <= i < j < |job.progs[p]|
      ensures job.slot[p][Peer(job.progs[p][i])] != job.slot[p][Peer(job.progs[p][j])]
    {
      ProgramPeers(pl, p, job.progs[p][i]);
      ProgramPeers(pl, p, job.progs[p][j]);
    }
  }

  /** What the loops produce is what the protocol needs. */
  lemma JobMatched(pl: Placement, slot: seq<seq<nat>>)
    requires SlotsInjective(pl, slot)
    ensures Matched(JobOf(pl, slot), Levels(pl.N()))
  {
    JobSlots(pl, slot);
    JobPaired(pl, slot);
    JobOrdered(pl, slot);
    JobRanked(pl, slot);
  }

  // ---- The main theorem of wire-up ----

  /** However the PEs are placed on hosts and however their calls interleave: wire-up never
      gets stuck, makes the same number of calls in every run, and ends with every listener
      closed and idle. At the end PE a holds two sockets to PE b in b's slot exactly when a
      and b are on different hosts and their positions split; otherwise the slot of a PE on
      another host holds nothing. */
  lemma WireUpCompletes(pl: Placement, slot: seq<seq<nat>>, schedule: seq<nat>, st: State)
    requires SlotsInjective(pl, slot) && InRange(JobOf(pl, slot))
    requires Runs(JobOf(pl, slot), Init(JobOf(pl, slot)), schedule, st)
    ensures var job := JobOf(pl, slot); Inv(job, st)
    ensures var job := JobOf(pl, slot);
            SomeoneMoves(job, st) <==> |schedule| < TotalLeft(job.progs, Init(job))
    ensures var job := JobOf(pl, slot);
            !SomeoneMoves(job, st) ==>
              && (forall p :: 0 <= p < |st| ==> !st[p].open && st[p].cmdQ == [] && st[p].dataQ == [])
              && (forall a, b :: 0 <= a < pl.N() && 0 <= b < pl.N() && pl.Remote(a, b) ==>
                    if Splits(a, b) then Joined(job, st, a, b)
                    else slot[a][b] !in st[a].cmd && slot[a][b] !in st[a].data)
  {
    var job := JobOf(pl, slot);
    JobMatched(pl, slot);
    EveryRun(job, Levels(pl.N()), schedule, st);
    if !SomeoneMoves(job, st) {
      forall a, b | 0 <= a < pl.N() && 0 <= b < pl.N() && pl.Remote(a, b)
        ensures if Splits(a, b) then Joined(job, st, a, b)
                else slot[a][b] !in st[a].cmd && slot[a][b] !in st[a].data
      {
        WiredExactly(pl, a, b);
        if Splits(a, b) {
          WiredJoined(pl, slot, st, a, b);
        } else {
          UnwiredEmpty(pl, slot, st, a, b);
        }
      }
    }
  }

  lemma LinkOfConnect(pl: Placement, slot: seq<seq<nat>>, c: nat, s: nat, level: nat) returns (j: nat)
    requires c < pl.N() && s < pl.N() && ConnectsTo(pl, c, s, level)
    ensures IsLink(JobOf(pl, slot), c, j, s)
  {
    ConnectInProgram(pl, c, s, level);
    j :| 0 <= j < |Program(pl, c)| && Program(pl, c)[j] == Connect(level, s);
  }

  lemma WiredJoined(pl: Placement, slot: seq<seq<nat>>, st: State, a: nat, b: nat)
    requires a < pl.N() && b < pl.N() && Wired(pl, a, b)
    requires Inv(JobOf(pl, slot), st)
    requires forall c: nat, j: nat, s: nat :: IsLink(JobOf(pl, slot), c, j, s) ==>
               Joined(JobOf(pl, slot), st, c, s) && Joined(JobOf(pl, slot), st, s, c)
    ensures Joined(JobOf(pl, slot), st, a, b)
  {
    var level: nat :| ConnectsTo(pl, a, b, level) || ConnectsTo(pl, b, a, level);
    if ConnectsTo(pl, a, b, level) {
      var j := LinkOfConnect(pl, slot, a, b, level);
    } else {
      var j := LinkOfConnect(pl, slot, b, a, level);
    }
  }

  lemma UnwiredEmpty(pl: Placement, slot: seq<seq<nat>>, st: State, a: nat, b: nat)
    requires SlotsInjective(pl, slot) && Inv(JobOf(pl, slot), st)
    requires a < pl.N() && b < pl.N() && pl.Remote(a, b) && !Wired(pl, a, b)
    ensures slot[a][b] !in st[a].cmd && slot[a][b] !in st[a].data
  {
    var job := JobOf(pl, slot);
    assert Good(job, a, st[a]);
    var k := slot[a][b];
    if k in st[a].cmd {
      var q := st[a].cmd[k];
      var i :| 0 <= i < |job.progs[a]| && Peer(job.progs[a][i]) == q;
      OpMeets(pl, a, job.progs[a][i]);
      ProgramPeers(pl, a, job.progs[a][i]);
    }
  }
}

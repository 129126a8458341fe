/** Wire-up under every interleaving: some call can always return until every PE is done,
    every run has the same finite length, and the sockets it leaves behind pair up. */
module HandshakeLive {
  import opened Wiring
  import opened Handshake
  import opened HandshakeSafety
  import opened HandshakeSteps

  // ---- No deadlock ----

  ghost predicate SomeoneMoves(job: Job, st: State)
    requires InRange(job) && Shaped(job, st)
  {
    exists p: nat :: CanMove(job, st, p)
  }

  /** What the call that PE p is blocked in waits for: a client waits for its server, a server in
      the middle of a handshake for the client it serves, and a server with an empty backlog for a
      PE it counts that has yet to connect. Between clients the rank falls, between servers that
      wait for callers the level does. */
  ghost predicate WaitsOn(job: Job, st: State, levels: nat, p: nat, q: nat)
  {
    && InRange(job) && Shaped(job, st) && p < |st| && q < |st| && !CanMove(job, st, p)
    && (Connecting(job, p, st[p]) ==>
          && q == Current(job, p, st[p]).server
          && (Connecting(job, q, st[q]) ==>
                Rank(levels, q, Current(job, q, st[q]).level) < Rank(levels, p, Current(job, p, st[p]).level)))
    && (Serving(job, p, st[p]) ==> q == st[p].serving)
    && (Accepting(job, p, st[p]) && st[p].stage == 0 ==>
          && (exists j :: IsLink(job, q, j, p) && Ahead(st[q], j))
          && (Accepting(job, q, st[q]) ==> Current(job, q, st[q]).level < Current(job, p, st[p]).level))
    && (Connecting(job, p, st[p]) || Accepting(job, p, st[p]))
  }

  /** A chain of waits that ends in a PE whose call can return. */
  ghost predicate WaitChain(job: Job, st: State, levels: nat, chain: seq<nat>)
    requires InRange(job) && Shaped(job, st)
  {
    && chain != [] && CanMove(job, st, chain[|chain| - 1])
    && forall i :: 0 <= i < |chain| - 1 ==> WaitsOn(job, st, levels, chain[i], chain[i + 1])
  }

  lemma ChainOfOne(job: Job, st: State, levels: nat, p: nat)
    requires InRange(job) && Shaped(job, st)
    ensures WaitChain(job, st, levels, [p]) <==> CanMove(job, st, p)
  {}

  lemma Longer(job: Job, st: State, levels: nat, p: nat, chain: seq<nat>)
    requires InRange(job) && Shaped(job, st) && WaitChain(job, st, levels, chain)
    requires WaitsOn(job, st, levels, p, chain[0])
    ensures WaitChain(job, st, levels, [p] + chain)
  {
    var longer := [p] + chain;
    forall i | 0 <= i < |longer| - 1 ensures WaitsOn(job, st, levels, longer[i], longer[i + 1]) {
      if i > 0 { assert longer[i] == chain[i - 1] && longer[i + 1] == chain[i]; }
    }
  }

  /** A server in the middle of a handshake can go on, or waits on the client it serves, which can. */
  lemma ServingProgress(job: Job, st: State, levels: nat, s: nat) returns (chain: seq<nat>)
    requires Inv(job, st) && s < |st| && Serving(job, s, st[s])
    ensures WaitChain(job, st, levels, chain) && chain[0] == s
  {
    var c, j := ServedLink(job, st, s);
    assert Good(job, s, st[s]);
    if CanMove(job, st, s) {
      chain := [s];
    } else {
      assert st[c].pc == j && CanMove(job, st, c);
      chain := [s, c];
    }
  }

  /** The server of a client that waits to be accepted: serving somebody, about to accept, or
      itself connecting at a lower rank. */
  lemma ServerOfWaiting(job: Job, st: State, levels: nat, c: nat) returns (s: nat)
    requires Inv(job, st) && Matched(job, levels) && c < |st| && Connecting(job, c, st[c]) && !CanMove(job, st, c)
    ensures WaitsOn(job, st, levels, c, s)
    ensures Serving(job, s, st[s]) || CanMove(job, st, s) || Connecting(job, s, st[s])
  {
    hide Good, Counted, ServePhase, Rank;
    s := Current(job, c, st[c]).server;
    assert IsLink(job, c, st[c].pc, s);
    assert LinkOk(job, c, st[c], st[c].pc, s, st[s]);
    ListenerOpen(job, st, c);
    if Finished(job, s, st[s]) { FinishedIsQuiet(job, st, s); }
  }

  /** A client that waits to be accepted waits, along a chain of ever lower rank, on a PE whose
      call can return. */
  lemma {:induction false} WaitingProgress(job: Job, st: State, levels: nat, c: nat) returns (chain: seq<nat>)
    requires Inv(job, st) && Matched(job, levels) && c < |st| && Connecting(job, c, st[c])
    ensures WaitChain(job, st, levels, chain) && chain[0] == c
    decreases Rank(levels, c, Current(job, c, st[c]).level)
  {
    hide Links, Good, LinkOk, CanMove, WaitChain;
    ChainOfOne(job, st, levels, c);
    if CanMove(job, st, c) {
      chain := [c];
    } else {
      var s := ServerOfWaiting(job, st, levels, c);
      ChainOfOne(job, st, levels, s);
      if CanMove(job, st, s) {
        chain := [s];
      } else if Serving(job, s, st[s]) {
        chain := ServingProgress(job, st, levels, s);
      } else {
        chain := WaitingProgress(job, st, levels, s);
      }
      Longer(job, st, levels, c, chain);
      chain := [c] + chain;
    }
  }

  /** A server with an empty backlog has counted more PEs than it has accepted. */
  lemma MissingClient(job: Job, st: State, s: nat) returns (c: nat, j: nat)
    requires Inv(job, st) && InRange(job) && Paired(job) && Once(job)
    requires s < |st| && Accepting(job, s, st[s]) && st[s].stage == 0 && st[s].cmdQ == []
    ensures IsLink(job, c, j, s) && Ahead(st[c], j)
    ensures exists i :: 0 <= i <= st[s].pc && job.progs[s][i].level == job.progs[c][j].level
  {
    var ops := job.progs[s];
    var k := st[s].pc;
    assert Good(job, s, st[s]);
    NumAcceptsStep(ops, k);
    CountedSize(ops[..k + 1]);
    if Counted(ops[..k + 1]) <= st[s].accepted {
      SubsetSize(Counted(ops[..k + 1]), st[s].accepted);
      assert false;
    }
    c :| c in Counted(ops[..k + 1]) && c !in st[s].accepted;
    var i :| 0 <= i <= k && ops[i].Accept? && ops[i].counted == c;
    assert Accept(ops[i].level, c) in ops;
    assert Connect(ops[i].level, s) in job.progs[c];
    j :| 0 <= j < |job.progs[c]| && job.progs[c][j] == Connect(ops[i].level, s);
    assert IsLink(job, c, j, s);
    assert LinkOk(job, c, st[c], j, s, st[s]);
  }

  /** The missing client of a server with an empty backlog: connecting, or accepting at a lower
      level. */
  lemma CallerOfWaiting(job: Job, st: State, levels: nat, s: nat) returns (c: nat)
    requires Inv(job, st) && Matched(job, levels) && s < |st| && Accepting(job, s, st[s])
    requires st[s].stage == 0 && st[s].cmdQ == []
    ensures WaitsOn(job, st, levels, s, c) && (Connecting(job, c, st[c]) || Accepting(job, c, st[c]))
  {
    var j: nat;
    c, j := MissingClient(job, st, s);
    var i :| 0 <= i <= st[s].pc && job.progs[s][i].level == job.progs[c][j].level;
    assert job.progs[s][i].level <= Current(job, s, st[s]).level;
  }

  /** A server that waits for a caller waits, along ever lower levels and then ranks, on a PE
      whose call can return. */
  lemma {:induction false} AcceptingProgress(job: Job, st: State, levels: nat, s: nat) returns (chain: seq<nat>)
    requires Inv(job, st) && Matched(job, levels) && s < |st| && Accepting(job, s, st[s])
    ensures WaitChain(job, st, levels, chain) && chain[0] == s
    decreases Current(job, s, st[s]).level
  {
    if st[s].stage > 0 {
      chain := ServingProgress(job, st, levels, s);
    } else if st[s].cmdQ != [] {
      chain := [s];
    } else {
      var c := CallerOfWaiting(job, st, levels, s);
      if Connecting(job, c, st[c]) {
        chain := WaitingProgress(job, st, levels, c);
      } else {
        chain := AcceptingProgress(job, st, levels, c);
      }
      Longer(job, st, levels, s, chain);
      chain := [s] + chain;
    }
  }

  lemma ChainFrom(job: Job, st: State, levels: nat, p: nat) returns (chain: seq<nat>)
    requires Inv(job, st) && Matched(job, levels) && p < |st| && !Finished(job, p, st[p])
    ensures WaitChain(job, st, levels, chain) && chain[0] == p
  {
    if Connecting(job, p, st[p]) {
      chain := WaitingProgress(job, st, levels, p);
    } else {
      chain := AcceptingProgress(job, st, levels, p);
    }
  }

  /** Whenever some PE has not closed its listeners yet, some call can return. */
  lemma NoDeadlock(job: Job, st: State, levels: nat)
    requires Inv(job, st) && Matched(job, levels)
    ensures SomeoneMoves(job, st) <==> exists p :: 0 <= p < |st| && st[p].open
  {
    if p :| 0 <= p < |st| && st[p].open {
      if Finished(job, p, st[p]) {
        assert CanMove(job, st, p);
      } else {
        var chain := ChainFrom(job, st, levels, p);
        assert CanMove(job, st, chain[|chain| - 1]);
      }
    } else {
      forall p: nat | p < |st| ensures !CanMove(job, st, p) { assert Good(job, p, st[p]); }
    }
  }

  // ---- Every run has the same length ----

  function CallsLeft(ops: seq<Op>, pe: Pe): int
  {
    4 * (|ops| - pe.pc) - pe.stage + (if pe.open then 1 else 0)
  }

  function TotalLeft(progs: seq<seq<Op>>, st: State): int
    requires |progs| == |st|
  {
    if st == [] then 0
    else CallsLeft(progs[0], st[0]) + TotalLeft(progs[1..], st[1..])
  }

  lemma {:induction false} TotalUpdate(progs: seq<seq<Op>>, st: State, p: nat, pe: Pe)
    requires |progs| == |st| && p < |st|
    ensures TotalLeft(progs, st[p := pe]) == TotalLeft(progs, st) - CallsLeft(progs[p], st[p]) + CallsLeft(progs[p], pe)
  {
    if p > 0 {
      TotalUpdate(progs[1..], st[1..], p - 1, pe);
      assert st[p := pe][1..] == st[1..][p - 1 := pe];
    } else {
      assert st[p := pe][1..] == st[1..];
    }
  }

  lemma {:induction false} TotalNonNegative(progs: seq<seq<Op>>, st: State)
    requires |progs| == |st| && forall p :: 0 <= p < |st| ==> CallsLeft(progs[p], st[p]) >= 0
    ensures TotalLeft(progs, st) >= 0
    ensures TotalLeft(progs, st) == 0 ==> forall p :: 0 <= p < |st| ==> CallsLeft(progs[p], st[p]) == 0
  {
    if st != [] {
      forall p | 0 <= p < |st[1..]| ensures CallsLeft(progs[1..][p], st[1..][p]) >= 0 {
        assert progs[1..][p] == progs[p + 1] && st[1..][p] == st[p + 1];
      }
      TotalNonNegative(progs[1..], st[1..]);
      if TotalLeft(progs, st) == 0 {
        forall p | 0 <= p < |st| ensures CallsLeft(progs[p], st[p]) == 0 {
          if p > 0 { assert progs[1..][p - 1] == progs[p] && st[1..][p - 1] == st[p]; }
        }
      }
    }
  }

  lemma MoveCounts(job: Job, st: State, p: nat)
    requires Inv(job, st) && CanMove(job, st, p)
    requires Connecting(job, p, st[p]) ==> st[Current(job, p, st[p]).server].open
    ensures |Move(job, st, p)| == |job.progs|
    ensures TotalLeft(job.progs, Move(job, st, p)) == TotalLeft(job.progs, st) - 1
  {
    hide Links, SocketsOk, PeOk, TotalLeft, CallsLeft;
    if Connecting(job, p, st[p]) {
      var s := Current(job, p, st[p]).server;
      var st1 := st[s := ServerSees(p, st[p], st[s])];
      assert IsLink(job, p, st[p].pc, s) && s != p;
      TotalUpdate(job.progs, st, s, ServerSees(p, st[p], st[s]));
      TotalUpdate(job.progs, st1, p, ConnectStep(job.slot[p], st[p], st[s], s));
      ConnectCounts(job.progs[p], job.progs[s], job.slot[p], p, st[p], st[s], s);
    } else {
      TotalUpdate(job.progs, st, p, Move(job, st, p)[p]);
      OwnCounts(job, st, p);
    }
  }

  lemma ConnectCounts(ops: seq<Op>, sops: seq<Op>, slot: seq<nat>, p: nat, pe: Pe, srv: Pe, s: nat)
    requires s < |slot| && srv.open && pe.stage <= 3
    ensures CallsLeft(sops, ServerSees(p, pe, srv)) == CallsLeft(sops, srv)
    ensures CallsLeft(ops, ConnectStep(slot, pe, srv, s)) == CallsLeft(ops, pe) - 1
  {}

  lemma OwnCounts(job: Job, st: State, p: nat)
    requires Inv(job, st) && CanMove(job, st, p) && !Connecting(job, p, st[p])
    ensures CallsLeft(job.progs[p], Move(job, st, p)[p]) == CallsLeft(job.progs[p], st[p]) - 1
  {
    hide Links, SocketsOk, PeOk;
  }

  /** `st` is reached from `from` by letting the PEs in `schedule` complete one call each. */
  ghost predicate Runs(job: Job, from: State, schedule: seq<nat>, st: State)
    requires InRange(job)
    decreases |schedule|
  {
    if schedule == [] then st == from
    else
      Shaped(job, from) && CanMove(job, from, schedule[0]) &&
      Runs(job, Move(job, from, schedule[0]), schedule[1..], st)
  }

  lemma {:induction false} RunKeeps(job: Job, from: State, schedule: seq<nat>, st: State)
    requires Inv(job, from) && Once(job) && Paired(job) && SlotsDistinct(job)
    requires Runs(job, from, schedule, st)
    ensures Inv(job, st)
    ensures TotalLeft(job.progs, st) == TotalLeft(job.progs, from) - |schedule|
    decreases |schedule|
  {
    if schedule != [] {
      var p := schedule[0];
      if Connecting(job, p, from[p]) { ListenerOpen(job, from, p); }
      MoveKeeps(job, from, p);
      MoveCounts(job, from, p);
      RunKeeps(job, Move(job, from, p), schedule[1..], st);
    }
  }

  // ---- What wire-up leaves behind ----

  /** Both sockets a stores in the slot of b lead to b. */
  ghost predicate Joined(job: Job, st: State, a: nat, b: nat)
    requires InRange(job) && Shaped(job, st) && a < |st| && b < |st|
  {
    var k := job.slot[a][b];
    k in st[a].cmd && k in st[a].data && st[a].cmd[k] == b && st[a].data[k] == b
  }

  lemma FinishedJoined(job: Job, st: State, c: nat, j: nat, s: nat)
    requires Inv(job, st) && Paired(job) && Once(job) && SlotsDistinct(job)
    requires IsLink(job, c, j, s) && Finished(job, c, st[c]) && Finished(job, s, st[s])
    ensures Joined(job, st, c, s) && Joined(job, st, s, c)
  {
    assert Good(job, c, st[c]) && Good(job, s, st[s]);
    FinishedAcceptedAll(job, st, s);
    assert IsClient(job, c, s);
    assert IsPeer(job, c, s);
    ClientIsPeer(job, c, s);
    DistinctSlots(job, c, st[c].cmd[job.slot[c][s]], s);
    DistinctSlots(job, s, st[s].cmd[job.slot[s][c]], c);
  }

  /** For every schedule: the state keeps the invariant, it can go on exactly while fewer
      calls than the fixed total have been made, and when it cannot, every PE has closed
      its listeners with nothing pending on them and every handshake left two sockets
      on each side that lead to the other. */
  lemma EveryRun(job: Job, levels: nat, schedule: seq<nat>, st: State)
    requires Matched(job, levels) && Runs(job, Init(job), schedule, st)
    ensures Inv(job, st)
    ensures |schedule| <= TotalLeft(job.progs, Init(job))
    ensures SomeoneMoves(job, st) <==> |schedule| < TotalLeft(job.progs, Init(job))
    ensures !SomeoneMoves(job, st) ==>
              && (forall p :: 0 <= p < |st| ==> !st[p].open && st[p].cmdQ == [] && st[p].dataQ == [])
              && (forall c: nat, j: nat, s: nat :: IsLink(job, c, j, s) ==>
                    Joined(job, st, c, s) && Joined(job, st, s, c))
  {
    InitInv(job);
    RunKeeps(job, Init(job), schedule, st);
    NoDeadlock(job, st, levels);
    NothingLeft(job, st);
    if !SomeoneMoves(job, st) { AllClosed(job, st); }
  }

  lemma NothingLeft(job: Job, st: State)
    requires Inv(job, st)
    ensures TotalLeft(job.progs, st) >= 0
    ensures TotalLeft(job.progs, st) == 0 <==> forall p :: 0 <= p < |st| ==> !st[p].open
  {
    forall p | 0 <= p < |st|
      ensures CallsLeft(job.progs[p], st[p]) >= 0 && (st[p].open <==> CallsLeft(job.progs[p], st[p]) > 0)
    {
      assert Good(job, p, st[p]);
    }
    TotalNonNegative(job.progs, st);
    if forall p :: 0 <= p < |st| ==> !st[p].open { AllClosedTotal(job.progs, st); }
  }

  lemma {:induction false} AllClosedTotal(progs: seq<seq<Op>>, st: State)
    requires |progs| == |st| && forall p :: 0 <= p < |st| ==> CallsLeft(progs[p], st[p]) == 0
    ensures TotalLeft(progs, st) == 0
  {
    if st != [] {
      forall p | 0 <= p < |st[1..]| ensures CallsLeft(progs[1..][p], st[1..][p]) == 0 {
        assert progs[1..][p] == progs[p + 1] && st[1..][p] == st[p + 1];
      }
      AllClosedTotal(progs[1..], st[1..]);
    }
  }

  lemma AllClosed(job: Job, st: State)
    requires Inv(job, st) && Paired(job) && Once(job) && SlotsDistinct(job)
    requires forall p :: 0 <= p < |st| ==> !st[p].open
    ensures forall p :: 0 <= p < |st| ==> st[p].cmdQ == [] && st[p].dataQ == []
    ensures forall c: nat, j: nat, s: nat :: IsLink(job, c, j, s) ==> Joined(job, st, c, s) && Joined(job, st, s, c)
  {
    forall p | 0 <= p < |st| ensures Finished(job, p, st[p]) && st[p].cmdQ == [] && st[p].dataQ == [] {
      assert Good(job, p, st[p]);
      FinishedIsQuiet(job, st, p);
    }
    forall c: nat, j: nat, s: nat | IsLink(job, c, j, s) ensures Joined(job, st, c, s) && Joined(job, st, s, c) {
      FinishedJoined(job, st, c, j, s);
    }
  }
}

/** What every step of wire-up keeps: the handshake of each client-server pair is in one
    of a few phases, the backlogs hold only callers that are waiting, and the two sockets
    stored in a slot lead to the PE that owns the slot. */
module HandshakeSafety {
  import opened Wiring
  import opened Handshake

  ghost predicate IsClient(job: Job, c: nat, s: nat)
  {
    exists j: nat :: IsLink(job, c, j, s)
  }

  ghost predicate Serving(job: Job, s: nat, srv: Pe)
  {
    Accepting(job, s, srv) && srv.stage >= 1
  }

  ghost predicate Ahead(pe: Pe, j: nat) { pe.pc < j || (pe.pc == j && pe.stage == 0) }

  ghost predicate Quiet(srv: Pe, c: nat)
  {
    c !in srv.ready && c !in srv.hello && c !in srv.dataQ
  }

  /** c is the client s is serving: which of the two has made which call. */
  ghost predicate ServePhase(srv: Pe, cl: Pe, c: nat, j: nat)
  {
    if srv.stage == 1 then
      cl.pc == j && cl.stage == 1 && Quiet(srv, c)
    else if srv.stage == 2 then
      || (c in srv.ready && cl.pc == j && cl.stage == 1 && c !in srv.hello && c !in srv.dataQ)
      || (c !in srv.ready && cl.pc == j && cl.stage == 2 && c !in srv.hello && c !in srv.dataQ)
      || (c !in srv.ready && cl.pc == j && cl.stage == 3 && c in srv.hello && c !in srv.dataQ)
      || (c !in srv.ready && cl.pc > j && c in srv.hello && srv.dataQ == [c])
    else
      srv.peer == c && c !in srv.ready && c !in srv.hello &&
      ((cl.pc == j && cl.stage == 3 && c !in srv.dataQ) || (cl.pc > j && srv.dataQ == [c]))
  }

  /** The handshake between c, whose j-th operation connects to s, and s. */
  ghost predicate LinkOk(job: Job, c: nat, cl: Pe, j: nat, s: nat, srv: Pe)
  {
    if Ahead(cl, j) then
      c !in srv.cmdQ && c !in srv.accepted && Quiet(srv, c)
    else if c !in srv.accepted then
      cl.pc == j && cl.stage == 1 && c in srv.cmdQ && Quiet(srv, c)
    else
      c !in srv.cmdQ &&
      if Serving(job, s, srv) && srv.serving == c then ServePhase(srv, cl, c, j)
      else cl.pc > j && Quiet(srv, c)
  }

  ghost predicate Distinct(q: seq<nat>)
  {
    forall i, j :: 0 <= i < j < |q| ==> q[i] != q[j]
  }

  ghost predicate PeOk(job: Job, p: nat, pe: Pe)
  {
    && Placed(job, p, pe)
    && (Finished(job, p, pe) ==> pe.stage == 0)
    && (!pe.open ==> Finished(job, p, pe))
    && Distinct(pe.cmdQ)
    && (forall c :: c in pe.cmdQ || c in pe.accepted || c in pe.ready || c in pe.hello || c in pe.dataQ ==>
        IsClient(job, c, p))
    && |pe.accepted| == NumAccepts(job.progs[p][..pe.pc]) + (if Serving(job, p, pe) then 1 else 0)
    && (Serving(job, p, pe) ==> pe.serving in pe.accepted)
    && (forall c :: c in pe.hello ==> pe.hello[c] == c)
  }

  /** A stored socket leads to the PE that owns the slot, and a data socket sits next to a
      command socket of the same PE. */
  ghost predicate Stored(job: Job, p: nat, cmd: map<nat, nat>, data: map<nat, nat>)
    requires InRange(job) && p < |job.progs|
  {
    var slot := job.slot[p];
    && (forall k :: k in cmd ==> cmd[k] < |slot| && IsPeer(job, p, cmd[k]) && slot[cmd[k]] == k)
    && (forall k :: k in data ==> k in cmd && data[k] == cmd[k])
  }

  /** Sockets are stored in the right slots, and every finished handshake has left both. */
  ghost predicate SocketsOk(job: Job, p: nat, pe: Pe)
    requires InRange(job) && Placed(job, p, pe)
  {
    var slot := job.slot[p];
    && Stored(job, p, pe.cmd, pe.data)
    && (Serving(job, p, pe) && pe.stage == 3 ==> pe.serving < |slot| && slot[pe.serving] in pe.cmd)
    && (Connecting(job, p, pe) && pe.stage >= 1 ==> slot[Current(job, p, pe).server] in pe.cmd)
    && (forall i :: 0 <= i < pe.pc && job.progs[p][i].Connect? ==> slot[job.progs[p][i].server] in pe.data)
    && (forall c :: c in pe.accepted && !(Serving(job, p, pe) && pe.serving == c) ==>
          c < |slot| && slot[c] in pe.data)
  }

  ghost predicate Good(job: Job, p: nat, pe: Pe)
  {
    InRange(job) && PeOk(job, p, pe) && SocketsOk(job, p, pe)
  }

  ghost predicate Links(job: Job, st: State)
    requires |st| == |job.progs|
  {
    forall c: nat, j: nat, s: nat :: IsLink(job, c, j, s) ==> LinkOk(job, c, st[c], j, s, st[s])
  }

  ghost predicate Inv(job: Job, st: State)
  {
    && InRange(job)
    && Shaped(job, st)
    && Links(job, st)
    && (forall p :: 0 <= p < |st| ==> Good(job, p, st[p]))
  }

  lemma InitInv(job: Job)
    requires InRange(job)
    ensures Inv(job, Init(job))
  {
    var st := Init(job);
    forall p | 0 <= p < |st| ensures Good(job, p, st[p]) {
      assert job.progs[p][..0] == [];
    }
  }

  // ---- Consequences of the invariant ----

  /** At most one unaccepted data connection is pending, and it is the served client's. */
  lemma DataBacklog(job: Job, st: State, s: nat)
    requires Inv(job, st) && s < |st|
    ensures st[s].dataQ == [] || (Serving(job, s, st[s]) && st[s].dataQ == [st[s].serving])
  {
    if st[s].dataQ != [] {
      var c := st[s].dataQ[0];
      assert Good(job, s, st[s]) && c in st[s].dataQ;
      var j: nat :| IsLink(job, c, j, s);
      assert LinkOk(job, c, st[c], j, s, st[s]);
    }
  }

  lemma ServedLink(job: Job, st: State, s: nat) returns (c: nat, j: nat)
    requires Inv(job, st) && s < |st| && Serving(job, s, st[s])
    ensures c == st[s].serving && IsLink(job, c, j, s) && c in st[s].accepted
    ensures c !in st[s].cmdQ && ServePhase(st[s], st[c], c, j) && !Ahead(st[c], j)
  {
    c := st[s].serving;
    assert Good(job, s, st[s]);
    assert IsClient(job, c, s);
    j :| IsLink(job, c, j, s);
    assert LinkOk(job, c, st[c], j, s, st[s]);
  }

  lemma {:induction false} NumAcceptsStep(ops: seq<Op>, k: nat)
    requires k < |ops|
    ensures NumAccepts(ops[..k + 1]) == NumAccepts(ops[..k]) + (if ops[k].Accept? then 1 else 0)
  {
    assert ops[..k + 1][..k] == ops[..k];
  }

  /** With no peer met twice, as many PEs are counted as there are accepts. */
  lemma {:induction false} CountedSize(ops: seq<Op>)
    requires forall i, j :: 0 <= i < j < |ops| ==> Peer(ops[i]) != Peer(ops[j])
    ensures |Counted(ops)| == NumAccepts(ops)
  {
    if ops != [] {
      var init, last := ops[..|ops| - 1], ops[|ops| - 1];
      CountedSize(init);
      if last.Accept? {
        assert Counted(ops) == Counted(init) + {last.counted};
        assert last.counted !in Counted(init);
      } else {
        assert Counted(ops) == Counted(init);
      }
    }
  }

  /** Everyone who connects to s is counted by s. */
  lemma ClientsCounted(job: Job, c: nat, s: nat)
    requires InRange(job) && Paired(job) && IsClient(job, c, s)
    ensures c in Counted(job.progs[s])
  {
    var j: nat :| IsLink(job, c, j, s);
    var level := job.progs[c][j].level;
    assert Connect(level, s) in job.progs[c];
    assert Accept(level, c) in job.progs[s];
  }

  lemma SubsetSize<T>(a: set<T>, b: set<T>)
    requires a <= b
    ensures |a| <= |b|
    ensures |a| == |b| ==> a == b
  {
    assert b == a + (b - a);
  }

  /** A PE that has run its whole program has accepted everyone who will ever connect to it. */
  lemma FinishedAcceptedAll(job: Job, st: State, s: nat)
    requires Inv(job, st) && Paired(job) && Once(job) && s < |st| && Finished(job, s, st[s])
    ensures forall c :: IsClient(job, c, s) <==> c in st[s].accepted
  {
    var ops := job.progs[s];
    assert Good(job, s, st[s]);
    assert ops[..|ops|] == ops;
    CountedSize(ops);
    forall c | c in st[s].accepted ensures c in Counted(ops) { ClientsCounted(job, c, s); }
    SubsetSize(st[s].accepted, Counted(ops));
    forall c | IsClient(job, c, s) ensures c in st[s].accepted { ClientsCounted(job, c, s); }
  }

  lemma EmptyOrHead(q: seq<nat>)
    ensures q == [] || exists x :: x in q
  {
    if q != [] { assert q[0] in q; }
  }

  /** When a PE closes its listeners nothing is pending on them and nobody connects later. */
  lemma FinishedIsQuiet(job: Job, st: State, s: nat)
    requires Inv(job, st) && Paired(job) && Once(job) && s < |st| && Finished(job, s, st[s])
    ensures st[s].cmdQ == [] && st[s].dataQ == [] && st[s].ready == {} && st[s].hello == map[]
    ensures forall c: nat, j: nat :: IsLink(job, c, j, s) ==> st[c].pc > j
  {
    FinishedAcceptedAll(job, st, s);
    DataBacklog(job, st, s);
    EmptyOrHead(st[s].cmdQ);
    forall c: nat, j: nat | IsLink(job, c, j, s)
      ensures st[c].pc > j && c !in st[s].cmdQ && Quiet(st[s], c)
    {
      assert IsLink(job, c, j, s);
      assert IsClient(job, c, s);
      assert LinkOk(job, c, st[c], j, s, st[s]);
    }
    assert Good(job, s, st[s]);
    assert forall c :: IsClient(job, c, s) ==> c !in st[s].cmdQ && Quiet(st[s], c);
  }

  /** A client in the middle of a connect finds the listener it talks to open. */
  lemma ListenerOpen(job: Job, st: State, c: nat)
    requires Inv(job, st) && Paired(job) && Once(job) && c < |st|
    requires Connecting(job, c, st[c])
    ensures st[Current(job, c, st[c]).server].open
  {
    var s := Current(job, c, st[c]).server;
    assert IsLink(job, c, st[c].pc, s);
    assert Good(job, s, st[s]);
    if !st[s].open {
      FinishedIsQuiet(job, st, s);
      assert false;
    }
  }
}

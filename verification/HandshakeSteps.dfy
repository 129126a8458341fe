/** Every call that any PE can complete keeps the wire-up invariant. */
module HandshakeSteps {
  import opened Handshake
  import opened HandshakeSafety

  /** The client's position relative to its j-th operation did not change. */
  ghost predicate SamePosition(cl: Pe, cl': Pe, j: nat)
  {
    || (Ahead(cl, j) && Ahead(cl', j))
    || (cl.pc > j && cl'.pc > j)
    || (cl.pc == cl'.pc && cl.stage == cl'.stage)
  }

  ghost predicate SameBacklog(srv: Pe, srv': Pe, c: nat)
  {
    && (c in srv.cmdQ <==> c in srv'.cmdQ)
    && (c in srv.accepted <==> c in srv'.accepted)
    && (c in srv.ready <==> c in srv'.ready)
    && (c in srv.hello <==> c in srv'.hello)
    && (c in srv.dataQ <==> c in srv'.dataQ)
    && (srv.dataQ == [c] <==> srv'.dataQ == [c])
  }

  lemma LinkFrame(job: Job, c: nat, cl: Pe, cl': Pe, j: nat, s: nat, srv: Pe, srv': Pe)
    requires LinkOk(job, c, cl, j, s, srv)
    requires SamePosition(cl, cl', j) && SameBacklog(srv, srv', c)
    requires (Serving(job, s, srv) && srv.serving == c) <==> (Serving(job, s, srv') && srv'.serving == c)
    requires Serving(job, s, srv) && srv.serving == c ==> srv.stage == srv'.stage && srv.peer == srv'.peer
    ensures LinkOk(job, c, cl', j, s, srv')
  {}

  /** The only link a PE's own position can affect is the one it is working on. */
  lemma OtherLink(job: Job, c: nat, j: nat, s: nat, i: nat)
    requires Once(job) && IsLink(job, c, j, s) && IsLink(job, c, i, s)
    ensures i == j
  {}

  /** Slots of two PEs that p meets differ. */
  lemma DistinctSlots(job: Job, p: nat, a: nat, b: nat)
    requires InRange(job) && SlotsDistinct(job) && p < |job.progs| && IsPeer(job, p, a) && IsPeer(job, p, b)
    ensures a == b <==> job.slot[p][a] == job.slot[p][b]
  {
    var i :| 0 <= i < |job.progs[p]| && Peer(job.progs[p][i]) == a;
    var j :| 0 <= j < |job.progs[p]| && Peer(job.progs[p][j]) == b;
    if i < j { assert job.slot[p][Peer(job.progs[p][i])] != job.slot[p][Peer(job.progs[p][j])]; }
    if j < i { assert job.slot[p][Peer(job.progs[p][j])] != job.slot[p][Peer(job.progs[p][i])]; }
  }

  lemma StoreCommand(job: Job, p: nat, cmd: map<nat, nat>, data: map<nat, nat>, who: nat)
    requires InRange(job) && SlotsDistinct(job) && p < |job.progs| && IsPeer(job, p, who)
    requires Stored(job, p, cmd, data)
    ensures who < |job.progs| && Stored(job, p, cmd[job.slot[p][who] := who], data)
  {
    var k := job.slot[p][who];
    if k in data { DistinctSlots(job, p, cmd[k], who); }
  }

  lemma StoreData(job: Job, p: nat, cmd: map<nat, nat>, data: map<nat, nat>, who: nat)
    requires InRange(job) && SlotsDistinct(job) && p < |job.progs| && IsPeer(job, p, who) && who < |job.progs|
    requires Stored(job, p, cmd, data) && job.slot[p][who] in cmd
    ensures Stored(job, p, cmd, data[job.slot[p][who] := who])
  {
    DistinctSlots(job, p, cmd[job.slot[p][who]], who);
  }

  lemma ClientIsPeer(job: Job, c: nat, s: nat)
    requires InRange(job) && Paired(job) && IsClient(job, c, s)
    ensures IsPeer(job, s, c)
  {
    ClientsCounted(job, c, s);
    var i :| 0 <= i < |job.progs[s]| && job.progs[s][i].Accept? && job.progs[s][i].counted == c;
    assert Peer(job.progs[s][i]) == c;
  }

  lemma CloseKeeps(job: Job, st: State, p: nat)
    requires Inv(job, st) && CanMove(job, st, p) && Finished(job, p, st[p])
    ensures Inv(job, Move(job, st, p))
  {
    var st' := Move(job, st, p);
    forall c: nat, j: nat, s: nat | IsLink(job, c, j, s) ensures LinkOk(job, c, st'[c], j, s, st'[s]) {
      assert LinkOk(job, c, st[c], j, s, st[s]);
    }
    assert Good(job, p, st[p]) && Good(job, p, st'[p]);
  }

  // ---- The accepting side ----

  ghost predicate AcceptsAt(job: Job, p: nat, pe: Pe, stage: nat)
  {
    && InRange(job) && Accepting(job, p, pe) && pe.stage == stage && CanAccept(|job.progs|, pe)
    && PeOk(job, p, pe) && SocketsOk(job, p, pe)
  }

  lemma TailOf(q: seq<nat>, x: nat)
    requires q != [] && Distinct(q)
    ensures x in q <==> x == q[0] || x in q[1..]
    ensures q[0] !in q[1..] && Distinct(q[1..])
  {
    assert q == [q[0]] + q[1..];
  }

  lemma AcceptCommandLink(job: Job, p: nat, pe: Pe, c: nat, cl: Pe, j: nat)
    requires AcceptsAt(job, p, pe, 0) && LinkOk(job, c, cl, j, p, pe)
    ensures LinkOk(job, c, cl, j, p, AcceptStep(job.slot[p], pe))
  {
    TailOf(pe.cmdQ, c);
    if c != pe.cmdQ[0] { LinkFrame(job, c, cl, cl, j, p, pe, AcceptStep(job.slot[p], pe)); }
  }

  lemma AcceptCommandGood(job: Job, p: nat, pe: Pe)
    requires AcceptsAt(job, p, pe, 0) && pe.cmdQ[0] !in pe.accepted
    ensures Good(job, p, AcceptStep(job.slot[p], pe))
  {
    AcceptCommandPeOk(job, p, pe);
    assert SocketsOk(job, p, AcceptStep(job.slot[p], pe));
  }

  lemma AcceptCommandPeOk(job: Job, p: nat, pe: Pe)
    requires AcceptsAt(job, p, pe, 0) && pe.cmdQ[0] !in pe.accepted
    ensures PeOk(job, p, AcceptStep(job.slot[p], pe))
  {
    hide SocketsOk;
    forall c ensures c in pe.cmdQ <==> c == pe.cmdQ[0] || c in pe.cmdQ[1..] { TailOf(pe.cmdQ, c); }
    TailOf(pe.cmdQ, 0);
    assert |AcceptStep(job.slot[p], pe).accepted| == |pe.accepted| + 1;
  }

  lemma SendByteLink(job: Job, p: nat, pe: Pe, c: nat, cl: Pe, j: nat)
    requires AcceptsAt(job, p, pe, 1) && LinkOk(job, c, cl, j, p, pe)
    ensures LinkOk(job, c, cl, j, p, AcceptStep(job.slot[p], pe))
  {
    if c != pe.serving { LinkFrame(job, c, cl, cl, j, p, pe, AcceptStep(job.slot[p], pe)); }
  }

  lemma SendByteGood(job: Job, p: nat, pe: Pe)
    requires AcceptsAt(job, p, pe, 1)
    ensures Good(job, p, AcceptStep(job.slot[p], pe))
  {}

  lemma ReadNumberLink(job: Job, p: nat, pe: Pe, c: nat, cl: Pe, j: nat)
    requires AcceptsAt(job, p, pe, 2) && LinkOk(job, c, cl, j, p, pe)
    ensures LinkOk(job, c, cl, j, p, AcceptStep(job.slot[p], pe))
  {
    if c != pe.serving { LinkFrame(job, c, cl, cl, j, p, pe, AcceptStep(job.slot[p], pe)); }
  }

  /** The number read is the caller's own, so its socket goes to its own slot. */
  lemma ReadNumberGood(job: Job, p: nat, pe: Pe)
    requires AcceptsAt(job, p, pe, 2) && pe.serving < |job.progs|
    requires Stored(job, p, pe.cmd[job.slot[p][pe.serving] := pe.serving], pe.data)
    ensures Good(job, p, AcceptStep(job.slot[p], pe))
  {
    var pe' := AcceptStep(job.slot[p], pe);
    assert pe.hello[pe.serving] == pe.serving;
    assert PeOk(job, p, pe');
    assert SocketsOk(job, p, pe');
  }

  lemma AcceptDataLink(job: Job, p: nat, pe: Pe, c: nat, cl: Pe, j: nat)
    requires AcceptsAt(job, p, pe, 3) && LinkOk(job, c, cl, j, p, pe) && pe.dataQ == [pe.serving]
    ensures LinkOk(job, c, cl, j, p, AcceptStep(job.slot[p], pe))
  {
    if c != pe.serving { LinkFrame(job, c, cl, cl, j, p, pe, AcceptStep(job.slot[p], pe)); }
  }

  /** The data connection accepted is the one of the client being served. */
  lemma AcceptDataGood(job: Job, p: nat, pe: Pe)
    requires AcceptsAt(job, p, pe, 3)
    requires pe.peer == pe.serving && pe.dataQ == [pe.serving] && pe.serving < |job.progs|
    requires Stored(job, p, pe.cmd, pe.data[job.slot[p][pe.serving] := pe.serving])
    ensures Good(job, p, AcceptStep(job.slot[p], pe))
  {
    var pe' := AcceptStep(job.slot[p], pe);
    NumAcceptsStep(job.progs[p], pe.pc);
    assert PeOk(job, p, pe');
    assert SocketsOk(job, p, pe');
  }

  /** A call on the accepting side changes p's own record only: what remains to be shown
      concerns p and the clients of p. */
  lemma AcceptorChanged(job: Job, st: State, p: nat, pe': Pe)
    requires Inv(job, st) && p < |st| && Accepting(job, p, st[p])
    requires Good(job, p, pe')
    requires pe'.pc == st[p].pc || (pe'.pc == st[p].pc + 1 && pe'.stage == 0)
    requires forall c: nat, j: nat :: IsLink(job, c, j, p) ==> LinkOk(job, c, st[c], j, p, pe')
    ensures Inv(job, st[p := pe'])
  {
    hide SocketsOk, Stored;
    var st' := st[p := pe'];
    forall c: nat, j: nat, s: nat | IsLink(job, c, j, s) ensures LinkOk(job, c, st'[c], j, s, st'[s]) {
      assert LinkOk(job, c, st[c], j, s, st[s]);
      if c == p {
        assert j != st[p].pc && s != p;
        LinkFrame(job, p, st[p], pe', j, s, st[s], st[s]);
      }
    }
  }

  lemma AcceptKeeps(job: Job, st: State, p: nat)
    requires Inv(job, st) && Paired(job) && SlotsDistinct(job) && CanMove(job, st, p) && Accepting(job, p, st[p])
    ensures Inv(job, Move(job, st, p))
  {
    var pe := st[p];
    var pe' := AcceptStep(job.slot[p], pe);
    assert Good(job, p, pe) && AcceptsAt(job, p, pe, pe.stage);
    AcceptGood(job, st, p);
    DataBacklog(job, st, p);
    forall c: nat, j: nat | IsLink(job, c, j, p) ensures LinkOk(job, c, st[c], j, p, pe') {
      assert LinkOk(job, c, st[c], j, p, pe);
      if pe.stage == 0 { AcceptCommandLink(job, p, pe, c, st[c], j); }
      else if pe.stage == 1 { SendByteLink(job, p, pe, c, st[c], j); }
      else if pe.stage == 2 { ReadNumberLink(job, p, pe, c, st[c], j); }
      else { AcceptDataLink(job, p, pe, c, st[c], j); }
    }
    AcceptorChanged(job, st, p, pe');
  }

  lemma AcceptGood(job: Job, st: State, p: nat)
    requires Inv(job, st) && Paired(job) && SlotsDistinct(job) && CanMove(job, st, p)
    requires AcceptsAt(job, p, st[p], st[p].stage)
    ensures Good(job, p, AcceptStep(job.slot[p], st[p]))
  {
    var pe := st[p];
    if pe.stage == 0 {
      var who := pe.cmdQ[0];
      assert who in pe.cmdQ;
      var j: nat :| IsLink(job, who, j, p);
      assert LinkOk(job, who, st[who], j, p, st[p]);
      AcceptCommandGood(job, p, pe);
    } else if pe.stage == 1 {
      SendByteGood(job, p, pe);
    } else {
      var who, j := ServedLink(job, st, p);
      ClientIsPeer(job, who, p);
      DataBacklog(job, st, p);
      if pe.stage == 2 {
        StoreCommand(job, p, pe.cmd, pe.data, who);
        ReadNumberGood(job, p, pe);
      } else {
        StoreData(job, p, pe.cmd, pe.data, who);
        AcceptDataGood(job, p, pe);
      }
    }
  }

  // ---- The connecting side ----

  ghost predicate ConnectsAt(job: Job, p: nat, pe: Pe, s: nat, srv: Pe, stage: nat)
  {
    && InRange(job) && Connecting(job, p, pe) && pe.stage == stage && CanConnect(p, pe, srv)
    && s == Current(job, p, pe).server && s < |job.progs| && IsLink(job, p, pe.pc, s)
    && LinkOk(job, p, pe, pe.pc, s, srv)
    && Good(job, p, pe) && Good(job, s, srv)
    && srv.open
    && (srv.dataQ == [] || srv.dataQ == [srv.serving])
  }

  /** The caller's record after the call, and the server's. */
  ghost predicate BothGood(job: Job, p: nat, pe: Pe, s: nat, srv: Pe)
    requires s < |job.progs| && p < |job.progs| && InRange(job)
  {
    var pe', srv' := ConnectStep(job.slot[p], pe, srv, s), ServerSees(p, pe, srv);
    && Good(job, p, pe') && Good(job, s, srv')
    && LinkOk(job, p, pe', pe.pc, s, srv')
  }

  lemma ConnectCommandGood(job: Job, p: nat, pe: Pe, s: nat, srv: Pe)
    requires ConnectsAt(job, p, pe, s, srv, 0)
    requires Stored(job, p, pe.cmd[job.slot[p][s] := s], pe.data)
    ensures BothGood(job, p, pe, s, srv)
  {
    ConnectCommandOwn(job, p, pe, s, srv);
    ConnectCommandSeen(job, p, pe, s, srv);
  }

  lemma ConnectCommandOwn(job: Job, p: nat, pe: Pe, s: nat, srv: Pe)
    requires ConnectsAt(job, p, pe, s, srv, 0)
    requires Stored(job, p, pe.cmd[job.slot[p][s] := s], pe.data)
    ensures Good(job, p, ConnectStep(job.slot[p], pe, srv, s))
  {
    var pe' := ConnectStep(job.slot[p], pe, srv, s);
    assert PeOk(job, p, pe');
    assert SocketsOk(job, p, pe');
  }

  lemma ConnectCommandSeen(job: Job, p: nat, pe: Pe, s: nat, srv: Pe)
    requires ConnectsAt(job, p, pe, s, srv, 0)
    ensures Good(job, s, ServerSees(p, pe, srv))
  {
    assert IsClient(job, p, s);
    var srv' := ServerSees(p, pe, srv);
    assert PeOk(job, s, srv');
    assert SocketsOk(job, s, srv');
  }

  lemma ReadByteGood(job: Job, p: nat, pe: Pe, s: nat, srv: Pe)
    requires ConnectsAt(job, p, pe, s, srv, 1)
    ensures BothGood(job, p, pe, s, srv)
  {
    var pe', srv' := ConnectStep(job.slot[p], pe, srv, s), ServerSees(p, pe, srv);
    assert PeOk(job, p, pe');
    assert SocketsOk(job, p, pe');
    assert PeOk(job, s, srv');
    assert SocketsOk(job, s, srv');
  }

  lemma SendNumberGood(job: Job, p: nat, pe: Pe, s: nat, srv: Pe)
    requires ConnectsAt(job, p, pe, s, srv, 2)
    ensures BothGood(job, p, pe, s, srv)
  {
    assert IsClient(job, p, s);
    var pe', srv' := ConnectStep(job.slot[p], pe, srv, s), ServerSees(p, pe, srv);
    assert PeOk(job, p, pe');
    assert SocketsOk(job, p, pe');
    assert PeOk(job, s, srv');
    assert SocketsOk(job, s, srv');
  }

  lemma ConnectDataGood(job: Job, p: nat, pe: Pe, s: nat, srv: Pe)
    requires Good(job, p, pe) && Connecting(job, p, pe) && pe.stage == 3 && srv.open
    requires s == Current(job, p, pe).server && s < |job.progs|
    requires Stored(job, p, pe.cmd, pe.data[job.slot[p][s] := s])
    ensures Good(job, p, ConnectStep(job.slot[p], pe, srv, s))
  {
    var pe' := ConnectStep(job.slot[p], pe, srv, s);
    NumAcceptsStep(job.progs[p], pe.pc);
    assert PeOk(job, p, pe');
    assert SocketsOk(job, p, pe') by {
      forall i | 0 <= i < pe'.pc && job.progs[p][i].Connect? ensures job.slot[p][job.progs[p][i].server] in pe'.data {
        if i == pe.pc { assert job.progs[p][i].server == s; }
      }
    }
  }

  lemma ConnectDataSeen(job: Job, p: nat, pe: Pe, s: nat, srv: Pe)
    requires ConnectsAt(job, p, pe, s, srv, 3)
    ensures Good(job, s, ServerSees(p, pe, srv))
    ensures LinkOk(job, p, ConnectStep(job.slot[p], pe, srv, s), pe.pc, s, ServerSees(p, pe, srv))
  {
    assert IsClient(job, p, s);
    var srv' := ServerSees(p, pe, srv);
    assert PeOk(job, s, srv');
    assert SocketsOk(job, s, srv');
  }

  /** Other callers of the server keep their place in its backlogs. */
  lemma OthersUndisturbed(job: Job, p: nat, pe: Pe, s: nat, srv: Pe, c: nat, cl: Pe, j: nat)
    requires ConnectsAt(job, p, pe, s, srv, pe.stage) && c != p
    requires LinkOk(job, c, cl, j, s, srv)
    ensures LinkOk(job, c, cl, j, s, ServerSees(p, pe, srv))
  {
    hide SocketsOk, Stored, PeOk;
    LinkFrame(job, c, cl, cl, j, s, srv, ServerSees(p, pe, srv));
  }

  /** Nothing that the links of other clients look at changes in p's or s's own record. */
  lemma ConnectorFrame(job: Job, p: nat, st: State, s: nat, c: nat, j: nat, t: nat)
    requires Inv(job, st) && p < |st| && s < |st| && p != s && c != p && IsLink(job, c, j, t)
    requires ConnectsAt(job, p, st[p], s, st[s], st[p].stage)
    requires t == s ==> LinkOk(job, c, st[c], j, s, ServerSees(p, st[p], st[s]))
    ensures var st' := st[s := ServerSees(p, st[p], st[s])][p := ConnectStep(job.slot[p], st[p], st[s], s)];
            LinkOk(job, c, st'[c], j, t, st'[t])
  {
    hide SocketsOk, Stored, PeOk;
    var pe', srv' := ConnectStep(job.slot[p], st[p], st[s], s), ServerSees(p, st[p], st[s]);
    assert LinkOk(job, c, st[c], j, t, st[t]);
    var cl' := if c == s then srv' else st[c];
    if t == s {
    } else if t == p {
      LinkFrame(job, c, st[c], cl', j, p, st[p], pe');
    } else {
      LinkFrame(job, c, st[c], cl', j, t, st[t], st[t]);
    }
  }

  /** Nor do the links p made earlier or will make later. */
  lemma OwnLinkFrame(job: Job, p: nat, st: State, s: nat, j: nat, t: nat)
    requires Inv(job, st) && Once(job) && p < |st| && s < |st| && p != s && IsLink(job, p, j, t)
    requires ConnectsAt(job, p, st[p], s, st[s], st[p].stage)
    requires BothGood(job, p, st[p], s, st[s])
    ensures var st' := st[s := ServerSees(p, st[p], st[s])][p := ConnectStep(job.slot[p], st[p], st[s], s)];
            LinkOk(job, p, st'[p], j, t, st'[t])
  {
    hide SocketsOk, Stored, PeOk;
    assert LinkOk(job, p, st[p], j, t, st[t]);
    if t == s {
      OtherLink(job, p, j, s, st[p].pc);
    } else {
      LinkFrame(job, p, st[p], ConnectStep(job.slot[p], st[p], st[s], s), j, t, st[t], st[t]);
    }
  }

  lemma ConnectorLinks(job: Job, st: State, p: nat, s: nat, c: nat, j: nat, t: nat)
    requires Inv(job, st) && Once(job) && p < |st| && s < |st| && p != s && IsLink(job, c, j, t)
    requires ConnectsAt(job, p, st[p], s, st[s], st[p].stage)
    requires BothGood(job, p, st[p], s, st[s])
    ensures var st' := st[s := ServerSees(p, st[p], st[s])][p := ConnectStep(job.slot[p], st[p], st[s], s)];
            LinkOk(job, c, st'[c], j, t, st'[t])
  {
    if c == p {
      OwnLinkFrame(job, p, st, s, j, t);
    } else {
      assert LinkOk(job, c, st[c], j, t, st[t]);
      if t == s { OthersUndisturbed(job, p, st[p], s, st[s], c, st[c], j); }
      ConnectorFrame(job, p, st, s, c, j, t);
    }
  }

  lemma TwoChanged(job: Job, st: State, p: nat, pe': Pe, s: nat, srv': Pe)
    requires InRange(job) && Shaped(job, st) && p < |st| && s < |st| && p != s
    requires forall q :: 0 <= q < |st| ==> Good(job, q, st[q])
    requires Good(job, p, pe') && Good(job, s, srv') && Links(job, st[s := srv'][p := pe'])
    ensures Inv(job, st[s := srv'][p := pe'])
  {
    hide SocketsOk, Links;
  }

  lemma ConnectorChanged(job: Job, st: State, p: nat, s: nat)
    requires Inv(job, st) && Once(job) && p < |st| && s < |st| && p != s
    requires ConnectsAt(job, p, st[p], s, st[s], st[p].stage)
    requires BothGood(job, p, st[p], s, st[s])
    ensures Inv(job, st[s := ServerSees(p, st[p], st[s])][p := ConnectStep(job.slot[p], st[p], st[s], s)])
  {
    var pe', srv' := ConnectStep(job.slot[p], st[p], st[s], s), ServerSees(p, st[p], st[s]);
    var st' := st[s := srv'][p := pe'];
    forall c: nat, j: nat, t: nat | IsLink(job, c, j, t) ensures LinkOk(job, c, st'[c], j, t, st'[t]) {
      ConnectorLinks(job, st, p, s, c, j, t);
    }
    TwoChanged(job, st, p, pe', s, srv');
  }

  lemma ConnectKeeps(job: Job, st: State, p: nat)
    requires Inv(job, st) && Once(job) && Paired(job) && SlotsDistinct(job) && CanMove(job, st, p)
    requires Connecting(job, p, st[p])
    ensures Inv(job, Move(job, st, p))
  {
    var s := Current(job, p, st[p]).server;
    assert IsLink(job, p, st[p].pc, s);
    assert Good(job, p, st[p]) && Good(job, s, st[s]);
    ListenerOpen(job, st, p);
    DataBacklog(job, st, s);
    assert ConnectsAt(job, p, st[p], s, st[s], st[p].stage);
    assert IsPeer(job, p, s);
    if st[p].stage == 0 {
      StoreCommand(job, p, st[p].cmd, st[p].data, s);
      ConnectCommandGood(job, p, st[p], s, st[s]);
    }
    else if st[p].stage == 1 { ReadByteGood(job, p, st[p], s, st[s]); }
    else if st[p].stage == 2 { SendNumberGood(job, p, st[p], s, st[s]); }
    else {
      StoreData(job, p, st[p].cmd, st[p].data, s);
      ConnectDataGood(job, p, st[p], s, st[s]);
      ConnectDataSeen(job, p, st[p], s, st[s]);
    }
    ConnectorChanged(job, st, p, s);
  }

  /** Any call that can return keeps the invariant. */
  lemma MoveKeeps(job: Job, st: State, p: nat)
    requires Inv(job, st) && Once(job) && Paired(job) && SlotsDistinct(job) && CanMove(job, st, p)
    ensures Inv(job, Move(job, st, p))
  {
    if Finished(job, p, st[p]) {
      CloseKeeps(job, st, p);
    } else if Current(job, p, st[p]).Accept? {
      AcceptKeeps(job, st, p);
    } else {
      ConnectKeeps(job, st, p);
    }
  }
}

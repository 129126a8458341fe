/** Delivery conserves puts: for every ordered pair of PEs, what was handed over is what
    reached memory, followed by what is still on its way, in order, stage by stage. */
module Conservation {
  import opened Wiring
  import opened Delivery

  /** The puts in a send queue for PE b. */
  function SendTo(q: seq<Packet>, b: nat): seq<Put>
  {
    if q == [] then []
    else (if q[0].dest == b then [q[0].put] else []) + SendTo(q[1..], b)
  }

  /** The puts in a work queue that came from PE a. */
  function FromOrigin(q: seq<Job>, a: nat): seq<Put>
  {
    if q == [] then []
    else (if q[0].Received? && q[0].origin == a then [q[0].put] else []) + FromOrigin(q[1..], a)
  }

  lemma {:induction false} SendToAppend(q: seq<Packet>, pkt: Packet, b: nat)
    ensures SendTo(q + [pkt], b) == SendTo(q, b) + (if pkt.dest == b then [pkt.put] else [])
  {
    if q == [] {
      assert q + [pkt] == [pkt];
      assert [pkt][1..] == [];
    } else {
      SendToAppend(q[1..], pkt, b);
      assert (q + [pkt])[1..] == q[1..] + [pkt];
    }
  }

  lemma {:induction false} FromOriginAppend(q: seq<Job>, job: Job, a: nat)
    ensures FromOrigin(q + [job], a) == FromOrigin(q, a) + (if job.Received? && job.origin == a then [job.put] else [])
  {
    if q == [] {
      assert q + [job] == [job];
      assert [job][1..] == [];
    } else {
      FromOriginAppend(q[1..], job, a);
      assert (q + [job])[1..] == q[1..] + [job];
    }
  }

  /** What a handed to comm_put for b and has not reached b's memory yet, oldest first. */
  function InFlight(a: nat, b: nat, pa: Pe, pb: Pe): seq<Put>
    requires b < |pa.wire|
  {
    FromOrigin(pb.workQ, a) + pa.wire[b] + SendTo(pa.sendQ, b)
  }

  /** Where the puts of a to b are. */
  ghost predicate Flow(cfg: Config, a: nat, b: nat, pa: Pe, pb: Pe)
    requires a < cfg.N() && b < cfg.N() && b < |pa.wire| && b < |pa.handed| && a < |pb.got|
  {
    if cfg.Local(a, b) then
      && pa.handed[b] == pb.got[a]
      && FromOrigin(pb.workQ, a) == [] && pa.wire[b] == [] && SendTo(pa.sendQ, b) == []
    else if cfg.Connected(a, b) then
      pa.handed[b] == pb.got[a] + InFlight(a, b, pa, pb)
    else
      pb.got[a] == [] && FromOrigin(pb.workQ, a) == [] && pa.wire[b] == []
  }

  ghost predicate Flows(cfg: Config, st: State)
  {
    && Shaped(cfg, st)
    && (forall a, b :: 0 <= a < |st| && 0 <= b < |st| ==> Flow(cfg, a, b, st[a], st[b]))
  }

  lemma FlowFrame(cfg: Config, a: nat, b: nat, pa: Pe, pb: Pe, pa': Pe, pb': Pe)
    requires a < cfg.N() && b < cfg.N()
    requires b < |pa.wire| && b < |pa.handed| && a < |pb.got| && b < |pa'.wire| && b < |pa'.handed| && a < |pb'.got|
    requires Flow(cfg, a, b, pa, pb)
    requires pa.handed[b] == pa'.handed[b] && pb.got[a] == pb'.got[a]
    requires FromOrigin(pb.workQ, a) == FromOrigin(pb'.workQ, a)
    requires pa.wire[b] == pa'.wire[b] && SendTo(pa.sendQ, b) == SendTo(pa'.sendQ, b)
    ensures Flow(cfg, a, b, pa', pb')
  {}

  // ---- Each kind of change ----

  lemma WrittenShaped(cfg: Config, pe: Pe, origin: nat, put: Put)
    requires PeShaped(cfg, pe) && origin < cfg.N() && PutShaped(cfg, put)
    ensures PeShaped(cfg, Written(pe, origin, put))
  {}

  lemma QueuedShaped(cfg: Config, pe: Pe, dest: nat, put: Put)
    requires PeShaped(cfg, pe) && dest < cfg.N() && PutShaped(cfg, put)
    ensures PeShaped(cfg, Queued(HandedOver(pe, dest, put), dest, put))
    ensures PeShaped(cfg, HandedOver(pe, dest, put))
  {}

  lemma CommPutShaped(cfg: Config, st: State, p: nat, dest: nat, put: Put)
    requires Shaped(cfg, st) && p < |st| && dest < |st| && PutShaped(cfg, put)
    ensures Shaped(cfg, CommPut(cfg, st, p, dest, put))
  {
    QueuedShaped(cfg, st[p], dest, put);
    var st1 := st[p := HandedOver(st[p], dest, put)];
    WrittenShaped(cfg, st1[dest], p, put);
  }

  /** The pair a put belongs to: the put is in memory at once, or last in the pipeline. */
  lemma CommPutPair(cfg: Config, a: nat, b: nat, pa: Pe, pb: Pe, put: Put, pa': Pe, pb': Pe)
    requires a < cfg.N() && b < cfg.N()
    requires b < |pa.wire| && b < |pa.handed| && a < |pb.got| && b < |pa'.wire| && b < |pa'.handed| && a < |pb'.got|
    requires Flow(cfg, a, b, pa, pb)
    requires pa'.handed[b] == pa.handed[b] + [put] && pa'.wire[b] == pa.wire[b]
    requires FromOrigin(pb'.workQ, a) == FromOrigin(pb.workQ, a)
    requires pb'.got[a] == if cfg.Local(a, b) then pb.got[a] + [put] else pb.got[a]
    requires SendTo(pa'.sendQ, b) == if cfg.Local(a, b) then SendTo(pa.sendQ, b) else SendTo(pa.sendQ, b) + [put]
    ensures Flow(cfg, a, b, pa', pb')
  {
    hide SendTo, FromOrigin;
    if cfg.Connected(a, b) {
      AppendAssociative(FromOrigin(pb.workQ, a) + pa.wire[b], SendTo(pa.sendQ, b), [put]);
      AppendAssociative(pb.got[a], InFlight(a, b, pa, pb), [put]);
    }
  }

  lemma CommPutFlow(cfg: Config, st: State, p: nat, dest: nat, put: Put, a: nat, b: nat)
    requires Shaped(cfg, st) && p < |st| && dest < |st| && PutShaped(cfg, put) && a < |st| && b < |st|
    requires Flow(cfg, a, b, st[a], st[b])
    requires Shaped(cfg, CommPut(cfg, st, p, dest, put))
    ensures var st' := CommPut(cfg, st, p, dest, put); Flow(cfg, a, b, st'[a], st'[b])
  {
    hide Flow, SendTo, FromOrigin, JobShaped, PutShaped;
    var st' := CommPut(cfg, st, p, dest, put);
    if !cfg.Local(p, dest) { SendToAppend(st[p].sendQ, Packet(dest, put), b); }
    if a == p && b == dest {
      CommPutPair(cfg, a, b, st[a], st[b], put, st'[a], st'[b]);
    } else {
      FlowFrame(cfg, a, b, st[a], st[b], st'[a], st'[b]);
    }
  }

  lemma CommPutKeeps(cfg: Config, st: State, p: nat, dest: nat, put: Put)
    requires Flows(cfg, st) && p < |st| && dest < |st| && PutShaped(cfg, put)
    ensures Flows(cfg, CommPut(cfg, st, p, dest, put))
  {
    CommPutShaped(cfg, st, p, dest, put);
    var st' := CommPut(cfg, st, p, dest, put);
    forall a, b | 0 <= a < |st'| && 0 <= b < |st'| ensures Flow(cfg, a, b, st'[a], st'[b]) {
      assert Flow(cfg, a, b, st[a], st[b]);
      CommPutFlow(cfg, st, p, dest, put, a, b);
    }
  }

  /** Changes that leave the pipeline of a record alone. */
  ghost predicate SamePipeline(pe: Pe, pe': Pe)
  {
    && pe.sendQ == pe'.sendQ && pe.wire == pe'.wire && pe.workQ == pe'.workQ
    && pe.handed == pe'.handed && pe.got == pe'.got
  }

  lemma ControlKeeps(cfg: Config, st: State, p: nat, pe: Pe)
    requires Flows(cfg, st) && p < |st| && PeShaped(cfg, pe) && SamePipeline(st[p], pe)
    ensures Flows(cfg, st[p := pe])
  {
    var st' := st[p := pe];
    forall a, b | 0 <= a < |st'| && 0 <= b < |st'| ensures Flow(cfg, a, b, st'[a], st'[b]) {
      assert Flow(cfg, a, b, st[a], st[b]);
    }
  }

  lemma SendKeeps(cfg: Config, st: State, p: nat)
    requires Flows(cfg, st) && p < |st| && st[p].sendQ != []
    ensures Flows(cfg, Do(cfg, st, Send(p)))
  {
    var st' := Do(cfg, st, Send(p));
    var pkt := st[p].sendQ[0];
    assert PeShaped(cfg, st[p]);
    assert PeShaped(cfg, st'[p]);
    forall a, b | 0 <= a < |st'| && 0 <= b < |st'| ensures Flow(cfg, a, b, st'[a], st'[b]) {
      assert Flow(cfg, a, b, st[a], st[b]);
      SendFlow(cfg, st, p, a, b);
    }
  }

  lemma SendFlow(cfg: Config, st: State, p: nat, a: nat, b: nat)
    requires Flows(cfg, st) && p < |st| && st[p].sendQ != [] && a < |st| && b < |st|
    requires var st' := Do(cfg, st, Send(p)); PeShaped(cfg, st'[a]) && PeShaped(cfg, st'[b])
    ensures var st' := Do(cfg, st, Send(p)); Flow(cfg, a, b, st'[a], st'[b])
  {
    var st' := Do(cfg, st, Send(p));
    var pkt := st[p].sendQ[0];
    assert Flow(cfg, a, b, st[a], st[b]);
    if a == p && b == pkt.dest {
      if cfg.Connected(a, b) {
        assert InFlight(a, b, st'[a], st'[b]) == InFlight(a, b, st[a], st[b]);
      }
    } else {
      assert a == p ==> SendTo(st[p].sendQ, b) == SendTo(st[p].sendQ[1..], b);
      FlowFrame(cfg, a, b, st[a], st[b], st'[a], st'[b]);
    }
  }

  lemma RecvShaped(cfg: Config, st: State, a: nat, b: nat)
    requires Shaped(cfg, st) && a < |st| && b < |st| && st[a].wire[b] != []
    ensures Shaped(cfg, Do(cfg, st, Recv(a, b)))
  {
    assert PeShaped(cfg, st[a]) && PeShaped(cfg, st[b]);
    var put := st[a].wire[b][0];
    assert PutShaped(cfg, put);
    var pa := st[a].(wire := st[a].wire[b := st[a].wire[b][1..]]);
    assert PeShaped(cfg, pa);
    var st1 := st[a := pa];
    var pb := st1[b].(workQ := st1[b].workQ + [Received(a, put)]);
    assert PeShaped(cfg, pb);
  }

  lemma RecvFlow(cfg: Config, st: State, p: nat, q: nat, a: nat, b: nat)
    requires Flows(cfg, st) && p < |st| && q < |st| && st[p].wire[q] != [] && a < |st| && b < |st|
    ensures var st' := Do(cfg, st, Recv(p, q)); Shaped(cfg, st') && Flow(cfg, a, b, st'[a], st'[b])
  {
    RecvShaped(cfg, st, p, q);
    var st' := Do(cfg, st, Recv(p, q));
    assert Flow(cfg, a, b, st[a], st[b]) && Flow(cfg, p, q, st[p], st[q]);
    FromOriginAppend(st[q].workQ, Received(p, st[p].wire[q][0]), a);
    if a == p && b == q {
      RecvInFlight(a, b, st[a], st[b], st'[a], st'[b]);
    } else {
      FlowFrame(cfg, a, b, st[a], st[b], st'[a], st'[b]);
    }
  }

  /** The first put on the wire is the last one in the work queue now. */
  lemma RecvInFlight(a: nat, b: nat, pa: Pe, pb: Pe, pa': Pe, pb': Pe)
    requires b < |pa.wire| && b < |pa'.wire| && pa.wire[b] != []
    requires pa'.wire[b] == pa.wire[b][1..] && SendTo(pa'.sendQ, b) == SendTo(pa.sendQ, b)
    requires FromOrigin(pb'.workQ, a) == FromOrigin(pb.workQ, a) + [pa.wire[b][0]]
    ensures InFlight(a, b, pa', pb') == InFlight(a, b, pa, pb)
  {
    assert pa.wire[b] == [pa.wire[b][0]] + pa.wire[b][1..];
  }

  lemma RecvKeeps(cfg: Config, st: State, p: nat, q: nat)
    requires Flows(cfg, st) && p < |st| && q < |st| && st[p].wire[q] != []
    ensures Flows(cfg, Do(cfg, st, Recv(p, q)))
  {
    RecvShaped(cfg, st, p, q);
    var st' := Do(cfg, st, Recv(p, q));
    forall a, b | 0 <= a < |st'| && 0 <= b < |st'| ensures Flow(cfg, a, b, st'[a], st'[b]) {
      RecvFlow(cfg, st, p, q, a, b);
    }
  }

  lemma WorkShaped(cfg: Config, st: State, p: nat)
    requires Shaped(cfg, st) && Can(cfg, st, Work(p))
    ensures Shaped(cfg, Do(cfg, st, Work(p)))
  {
    var job := st[p].workQ[0];
    assert PeShaped(cfg, st[p]) && JobShaped(cfg, job);
    var pe := st[p].(workQ := st[p].workQ[1..]);
    assert PeShaped(cfg, pe);
    WrittenShaped(cfg, pe, job.origin, job.put);
  }

  lemma WorkPair(cfg: Config, a: nat, b: nat, pa: Pe, pb: Pe, pa': Pe, pb': Pe)
    requires a < cfg.N() && b < cfg.N()
    requires b < |pa.wire| && b < |pa.handed| && a < |pb.got| && b < |pa'.wire| && b < |pa'.handed| && a < |pb'.got|
    requires Flow(cfg, a, b, pa, pb)
    requires pb.workQ != [] && pb.workQ[0].Received? && pb.workQ[0].origin == a && pb'.workQ == pb.workQ[1..]
    requires pb'.got[a] == pb.got[a] + [pb.workQ[0].put]
    requires pa'.handed[b] == pa.handed[b] && pa'.wire[b] == pa.wire[b] && pa'.sendQ == pa.sendQ
    ensures Flow(cfg, a, b, pa', pb')
  {
    var put := pb.workQ[0].put;
    assert FromOrigin(pb.workQ, a) == [put] + FromOrigin(pb'.workQ, a);
    if cfg.Connected(a, b) {
      assert InFlight(a, b, pa, pb) == [put] + InFlight(a, b, pa', pb');
      AppendAssociative(pb.got[a], [put], InFlight(a, b, pa', pb'));
    }
  }

  lemma WorkFlow(cfg: Config, st: State, p: nat, a: nat, b: nat)
    requires Shaped(cfg, st) && Can(cfg, st, Work(p)) && a < |st| && b < |st|
    requires JobShaped(cfg, st[p].workQ[0])
    requires Flow(cfg, a, b, st[a], st[b])
    requires Shaped(cfg, Do(cfg, st, Work(p)))
    ensures var st' := Do(cfg, st, Work(p)); Flow(cfg, a, b, st'[a], st'[b])
  {
    var st' := Do(cfg, st, Work(p));
    var job := st[p].workQ[0];
    if a == job.origin && b == p {
      WorkPair(cfg, a, b, st[a], st[b], st'[a], st'[b]);
    } else {
      assert b == p ==> FromOrigin(st[p].workQ, a) == FromOrigin(st[p].workQ[1..], a);
      FlowFrame(cfg, a, b, st[a], st[b], st'[a], st'[b]);
    }
  }

  lemma WorkKeeps(cfg: Config, st: State, p: nat)
    requires Flows(cfg, st) && Can(cfg, st, Work(p))
    ensures Flows(cfg, Do(cfg, st, Work(p)))
  {
    WorkShaped(cfg, st, p);
    var st' := Do(cfg, st, Work(p));
    forall a, b | 0 <= a < |st'| && 0 <= b < |st'| ensures Flow(cfg, a, b, st'[a], st'[b]) {
      assert Flow(cfg, a, b, st[a], st[b]);
      assert PeShaped(cfg, st[p]) && JobShaped(cfg, st[p].workQ[0]);
      WorkFlow(cfg, st, p, a, b);
    }
  }

  /** Adding or removing a nonblocking job of p's own user moves no put. */
  lemma JobsKeep(cfg: Config, st: State, p: nat, pe: Pe)
    requires Flows(cfg, st) && p < |st| && PeShaped(cfg, pe)
    requires SamePipeline(st[p].(workQ := pe.workQ), pe)
    requires forall a :: 0 <= a < |st| ==> FromOrigin(st[p].workQ, a) == FromOrigin(pe.workQ, a)
    ensures Flows(cfg, st[p := pe])
  {
    var st' := st[p := pe];
    forall a, b | 0 <= a < |st'| && 0 <= b < |st'| ensures Flow(cfg, a, b, st'[a], st'[b]) {
      assert Flow(cfg, a, b, st[a], st[b]);
    }
  }

  lemma NonblockingKeeps(cfg: Config, st: State, p: nat, dest: nat, offset: nat, count: nat)
    requires Flows(cfg, st) && Can(cfg, st, UserPutNbi(p, dest, offset, count))
    ensures Flows(cfg, Do(cfg, st, UserPutNbi(p, dest, offset, count)))
  {
    var pe := NbiQueued(st[p], Issued(dest, offset, count));
    assert PeShaped(cfg, st[p]);
    assert PeShaped(cfg, pe);
    forall a | 0 <= a < |st| ensures FromOrigin(st[p].workQ, a) == FromOrigin(pe.workQ, a) {
      FromOriginAppend(st[p].workQ, Issued(dest, offset, count), a);
    }
    JobsKeep(cfg, st, p, pe);
  }

  lemma WorkNbiKeeps(cfg: Config, st: State, p: nat, source: seq<nat>)
    requires Flows(cfg, st) && Can(cfg, st, WorkNbi(p, source))
    ensures Flows(cfg, Do(cfg, st, WorkNbi(p, source)))
  {
    var job := st[p].workQ[0];
    assert PeShaped(cfg, st[p]) && JobShaped(cfg, job);
    var pe := NbiTaken(st[p]);
    assert PeShaped(cfg, pe);
    JobsKeep(cfg, st, p, pe);
    CommPutKeeps(cfg, st[p := pe], p, job.dest, Data(job.offset, source));
  }

  /** Every action keeps the account of every pair. */
  lemma FlowsKept(cfg: Config, st: State, act: Action)
    requires Flows(cfg, st) && Can(cfg, st, act)
    ensures Flows(cfg, Do(cfg, st, act))
  {
    hide Flow, CommPut;
    match act
    case UserPut(p, dest, put) => CommPutKeeps(cfg, st, p, dest, put);
    case UserPutNbi(p, dest, offset, count) => NonblockingKeeps(cfg, st, p, dest, offset, count);
    case Arrive(p) =>
      CommPutKeeps(cfg, st, p, 0, Flag(p));
      var st1 := CommPut(cfg, st, p, 0, Flag(p));
      ControlKeeps(cfg, st1, p, st1[p].(ctl := Waiting));
    case Release =>
      var i := st[0].ctl.next;
      CommPutKeeps(cfg, st, 0, i, Flag(i));
      var st1 := CommPut(cfg, st, 0, i, Flag(i));
      ControlKeeps(cfg, st1, 0, st1[0].(ctl := Releasing(i + 1)));
    case Send(p) => SendKeeps(cfg, st, p);
    case Recv(a, b) => RecvKeeps(cfg, st, a, b);
    case Work(p) => WorkKeeps(cfg, st, p);
    case WorkNbi(p, source) => WorkNbiKeeps(cfg, st, p, source);
    case Enter(p) => ControlKeeps(cfg, st, p, Do(cfg, st, act)[p]);
    case See(p) => ControlKeeps(cfg, st, p, Do(cfg, st, act)[p]);
    case Leave(p) => ControlKeeps(cfg, st, p, Do(cfg, st, act)[p]);
    case SeeNext => ControlKeeps(cfg, st, 0, Do(cfg, st, act)[0]);
    case Collect => ControlKeeps(cfg, st, 0, Do(cfg, st, act)[0]);
    case Turn => ControlKeeps(cfg, st, 0, Do(cfg, st, act)[0]);
    case Done => ControlKeeps(cfg, st, 0, Do(cfg, st, act)[0]);
  }

  lemma InitFlows(cfg: Config)
    requires cfg.N() > 0
    ensures Flows(cfg, Init(cfg))
  {}
}

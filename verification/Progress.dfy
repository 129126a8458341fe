/** The barrier is live: once every PE has made its call, some step other than spinning is
    enabled, and a measure falls, until everybody has left. */
module Progress {
  import opened Wrappers
  import opened Topology
  import opened Delivery
  import opened Conservation
  import opened Barrier

  /** Steps of the runtime, as opposed to new calls of the user. */
  predicate Internal(act: Action)
  {
    !act.UserPut? && !act.UserPutNbi? && !act.Enter?
  }

  // ---- A measure that every runtime step lowers ----

  function WireLoad(wire: seq<seq<Put>>): nat
  {
    if wire == [] then 0 else |wire[0]| + WireLoad(wire[1..])
  }

  function JobLoad(q: seq<Job>): nat
  {
    if q == [] then 0 else (if q[0].Received? then 1 else 4) + JobLoad(q[1..])
  }

  function ControlLoad(n: nat, ctl: Control): int
  {
    match ctl
    case Out => 0
    case Arriving => 6
    case Waiting => 2
    case Leaving => 1
    case Collecting(next) => 2 * (n - next) + 1 + 4 * (n - 1) + 1
    case Clearing(next) => 2 * (n - next) + 4 * (n - 1) + 1
    case Releasing(next) => 4 * (n - next) + 1
  }

  function Load(n: nat, pe: Pe): int
  {
    3 * |pe.sendQ| + 2 * WireLoad(pe.wire) + JobLoad(pe.workQ) + ControlLoad(n, pe.ctl)
  }

  function TotalLoad(n: nat, st: State): int
  {
    if st == [] then 0 else Load(n, st[0]) + TotalLoad(n, st[1..])
  }

  lemma {:induction false} WireLoadUpdate(wire: seq<seq<Put>>, b: nat, puts: seq<Put>)
    requires b < |wire|
    ensures WireLoad(wire[b := puts]) == WireLoad(wire) - |wire[b]| + |puts|
  {
    if b == 0 {
      assert wire[b := puts][1..] == wire[1..];
    } else {
      WireLoadUpdate(wire[1..], b - 1, puts);
      assert wire[b := puts][1..] == wire[1..][b - 1 := puts];
    }
  }

  lemma {:induction false} JobLoadAppend(q: seq<Job>, job: Job)
    ensures JobLoad(q + [job]) == JobLoad(q) + (if job.Received? then 1 else 4)
  {
    if q == [] {
      assert q + [job] == [job] && [job][1..] == [];
    } else {
      JobLoadAppend(q[1..], job);
      assert (q + [job])[1..] == q[1..] + [job];
    }
  }

  lemma {:induction false} TotalUpdate(n: nat, st: State, p: nat, pe: Pe)
    requires p < |st|
    ensures TotalLoad(n, st[p := pe]) == TotalLoad(n, st) - Load(n, st[p]) + Load(n, pe)
  {
    if p == 0 {
      assert st[p := pe][1..] == st[1..];
    } else {
      TotalUpdate(n, st[1..], p - 1, pe);
      assert st[p := pe][1..] == st[1..][p - 1 := pe];
    }
  }

  lemma {:induction false} TotalNonNegative(n: nat, st: State)
    requires forall p :: 0 <= p < |st| ==> Load(n, st[p]) >= 0
    ensures TotalLoad(n, st) >= 0
  {
    if st != [] {
      forall p | 0 <= p < |st[1..]| ensures Load(n, st[1..][p]) >= 0 { assert st[1..][p] == st[p + 1]; }
      TotalNonNegative(n, st[1..]);
    }
  }

  lemma LoadsNonNegative(cfg: Config, st: State)
    requires Inv(cfg, st)
    ensures TotalLoad(cfg.N(), st) >= 0
  {
    forall p | 0 <= p < |st| ensures Load(cfg.N(), st[p]) >= 0 {
      assert PeOk(cfg.N(), p, st[p]);
    }
    TotalNonNegative(cfg.N(), st);
  }

  /** A put costs nothing on the same host and the trip through the pipeline otherwise. */
  lemma CommPutLoad(cfg: Config, st: State, p: nat, dest: nat, put: Put)
    requires Shaped(cfg, st) && p < |st| && dest < |st| && PutShaped(cfg, put)
    ensures var st' := CommPut(cfg, st, p, dest, put);
            && |st'| == |st| && st'[p].ctl == st[p].ctl
            && TotalLoad(cfg.N(), st') == TotalLoad(cfg.N(), st) + (if cfg.Local(p, dest) then 0 else 3)
  {
    var n := cfg.N();
    var st1 := st[p := HandedOver(st[p], dest, put)];
    TotalUpdate(n, st, p, HandedOver(st[p], dest, put));
    if cfg.Local(p, dest) {
      TotalUpdate(n, st1, dest, Written(st1[dest], p, put));
    } else {
      TotalUpdate(n, st1, p, Queued(st1[p], dest, put));
    }
  }

  lemma ControlDrops(cfg: Config, st: State, p: nat, dest: nat, put: Put, ctl: Control)
    requires Shaped(cfg, st) && p < |st| && dest < |st| && PutShaped(cfg, put)
    requires ControlLoad(cfg.N(), ctl) <= ControlLoad(cfg.N(), st[p].ctl) - 4
    ensures var st' := WithControl(CommPut(cfg, st, p, dest, put), p, ctl);
            TotalLoad(cfg.N(), st') < TotalLoad(cfg.N(), st)
  {
    CommPutLoad(cfg, st, p, dest, put);
    var st1 := CommPut(cfg, st, p, dest, put);
    TotalUpdate(cfg.N(), st1, p, st1[p].(ctl := ctl));
  }

  lemma SendDrops(cfg: Config, st: State, p: nat)
    requires Shaped(cfg, st) && Can(cfg, st, Send(p))
    ensures TotalLoad(cfg.N(), Do(cfg, st, Send(p))) < TotalLoad(cfg.N(), st)
  {
    var pkt := st[p].sendQ[0];
    assert PeShaped(cfg, st[p]);
    WireLoadUpdate(st[p].wire, pkt.dest, st[p].wire[pkt.dest] + [pkt.put]);
    TotalUpdate(cfg.N(), st, p, Do(cfg, st, Send(p))[p]);
  }

  lemma RecvDrops(cfg: Config, st: State, a: nat, b: nat)
    requires Shaped(cfg, st) && Can(cfg, st, Recv(a, b))
    ensures TotalLoad(cfg.N(), Do(cfg, st, Recv(a, b))) < TotalLoad(cfg.N(), st)
  {
    var pa := st[a].(wire := st[a].wire[b := st[a].wire[b][1..]]);
    WireLoadUpdate(st[a].wire, b, st[a].wire[b][1..]);
    TotalUpdate(cfg.N(), st, a, pa);
    var st1 := st[a := pa];
    var put := st[a].wire[b][0];
    JobLoadAppend(st1[b].workQ, Received(a, put));
    TotalUpdate(cfg.N(), st1, b, st1[b].(workQ := st1[b].workQ + [Received(a, put)]));
  }

  lemma WorkDrops(cfg: Config, st: State, p: nat)
    requires Shaped(cfg, st) && Can(cfg, st, Work(p))
    ensures TotalLoad(cfg.N(), Do(cfg, st, Work(p))) < TotalLoad(cfg.N(), st)
  {
    var job := st[p].workQ[0];
    assert PeShaped(cfg, st[p]) && JobShaped(cfg, job);
    TotalUpdate(cfg.N(), st, p, Written(st[p].(workQ := st[p].workQ[1..]), job.origin, job.put));
  }

  lemma WorkNbiDrops(cfg: Config, st: State, p: nat, source: seq<nat>)
    requires Shaped(cfg, st) && Can(cfg, st, WorkNbi(p, source))
    ensures TotalLoad(cfg.N(), Do(cfg, st, WorkNbi(p, source))) < TotalLoad(cfg.N(), st)
  {
    var job := st[p].workQ[0];
    assert PeShaped(cfg, st[p]) && JobShaped(cfg, job);
    var pe := NbiTaken(st[p]);
    assert PeShaped(cfg, pe);
    TotalUpdate(cfg.N(), st, p, pe);
    CommPutLoad(cfg, st[p := pe], p, job.dest, Data(job.offset, source));
  }

  lemma ArriveDrops(cfg: Config, st: State, p: nat)
    requires Shaped(cfg, st) && Can(cfg, st, Arrive(p))
    ensures TotalLoad(cfg.N(), Do(cfg, st, Arrive(p))) < TotalLoad(cfg.N(), st)
  {
    ControlDrops(cfg, st, p, 0, Flag(p), Waiting);
  }

  lemma ReleaseDrops(cfg: Config, st: State)
    requires Shaped(cfg, st) && Can(cfg, st, Release)
    ensures TotalLoad(cfg.N(), Do(cfg, st, Release)) < TotalLoad(cfg.N(), st)
  {
    var i := st[0].ctl.next;
    ControlDrops(cfg, st, 0, i, Flag(i), Releasing(i + 1));
  }

  /** A step of a user thread that puts nothing. */
  lemma ControlOnly(cfg: Config, st: State, act: Action, p: nat)
    requires Shaped(cfg, st) && Can(cfg, st, act) && p < |st| && ControlOk(cfg.N(), 0, st[0])
    requires if act.See? || act.Leave? then act.p == p
             else p == 0 && (act.SeeNext? || act.Collect? || act.Turn? || act.Done?)
    ensures var pe' := Do(cfg, st, act)[p];
            && Do(cfg, st, act) == st[p := pe']
            && pe'.sendQ == st[p].sendQ && pe'.wire == st[p].wire && pe'.workQ == st[p].workQ
            && ControlLoad(cfg.N(), pe'.ctl) < ControlLoad(cfg.N(), st[p].ctl)
  {}

  lemma UserThreadDrops(cfg: Config, st: State, act: Action, p: nat)
    requires Shaped(cfg, st) && Can(cfg, st, act) && p < |st| && ControlOk(cfg.N(), 0, st[0])
    requires if act.See? || act.Leave? then act.p == p
             else p == 0 && (act.SeeNext? || act.Collect? || act.Turn? || act.Done?)
    ensures TotalLoad(cfg.N(), Do(cfg, st, act)) < TotalLoad(cfg.N(), st)
  {
    ControlOnly(cfg, st, act, p);
    TotalUpdate(cfg.N(), st, p, Do(cfg, st, act)[p]);
    hide Do, Can, Shaped, ControlOk, ControlLoad, TotalLoad;
  }

  /** Every runtime step lowers the measure. */
  lemma InternalDrops(cfg: Config, st: State, act: Action)
    requires Shaped(cfg, st) && PeOk(cfg.N(), 0, st[0]) && Can(cfg, st, act) && Internal(act)
    ensures TotalLoad(cfg.N(), Do(cfg, st, act)) < TotalLoad(cfg.N(), st)
  {
    match act
    case Arrive(p) => ArriveDrops(cfg, st, p);
    case Send(p) => SendDrops(cfg, st, p);
    case Recv(a, b) => RecvDrops(cfg, st, a, b);
    case Work(p) => WorkDrops(cfg, st, p);
    case WorkNbi(p, source) => WorkNbiDrops(cfg, st, p, source);
    case See(p) => UserThreadDrops(cfg, st, act, p);
    case Leave(p) => UserThreadDrops(cfg, st, act, p);
    case Release => ReleaseDrops(cfg, st);
    case SeeNext => UserThreadDrops(cfg, st, act, 0);
    case Collect => UserThreadDrops(cfg, st, act, 0);
    case Turn => UserThreadDrops(cfg, st, act, 0);
    case Done => UserThreadDrops(cfg, st, act, 0);
  }

  // ---- Some runtime step is enabled ----

  /** Nothing is on its way to PE 0. */
  ghost predicate ArrivalsIn(cfg: Config, st: State)
    requires Shaped(cfg, st)
  {
    forall i :: 0 < i < |st| ==> InFlight(i, 0, st[i], st[0]) == []
  }

  lemma NothingInFlight(cfg: Config, a: nat, b: nat, pa: Pe, pb: Pe)
    requires a < cfg.N() && b < cfg.N() && b < |pa.wire| && b < |pa.handed| && a < |pb.got|
    requires Flow(cfg, a, b, pa, pb) && (cfg.Local(a, b) || cfg.Connected(a, b)) && InFlight(a, b, pa, pb) == []
    ensures pa.handed[b] == pb.got[a]
  {}

  lemma RootReachable(cfg: Config, i: nat)
    requires i < cfg.N()
    ensures cfg.Local(0, i) || (cfg.Connected(0, i) && cfg.Connected(i, 0))
  {
    if !cfg.Local(0, i) {
      RootWired(cfg.pl, i);
      WiredExactly(cfg.pl, 0, i);
      WiredExactly(cfg.pl, i, 0);
    }
  }

  /** With nothing in flight from i to PE 0, the flag of i at PE 0 tells the whole story. */
  lemma ArrivalSettled(cfg: Config, st: State, i: nat)
    requires Inv(cfg, st) && 0 < i < |st| && InFlight(i, 0, st[i], st[0]) == []
    ensures Arrived(st[i]) == Consumed(st[0], i) + Bit(st[0].flags[i])
  {
    RootReachable(cfg, i);
    assert Flow(cfg, i, 0, st[i], st[0]);
    NothingInFlight(cfg, i, 0, st[i], st[0]);
    assert Signals(i, st[i], st[0]);
  }

  lemma ReleaseSettled(cfg: Config, st: State, i: nat)
    requires Inv(cfg, st) && 0 < i < |st| && InFlight(0, i, st[0], st[i]) == []
    ensures Released(st[0], i) == Left(st[i]) + Bit(st[i].flags[i])
  {
    RootReachable(cfg, i);
    assert Flow(cfg, 0, i, st[0], st[i]);
    NothingInFlight(cfg, 0, i, st[0], st[i]);
    assert Signals(i, st[i], st[0]);
  }

  /** An action of a user thread inside the barrier. */
  predicate OfUser(act: Action)
  {
    || act.Arrive? || act.See? || act.Leave? || act.SeeNext? || act.Collect? || act.Turn? || act.Release? || act.Done?
  }

  /** Everybody has made barrier call k and PE p has not left it: with no arrival and no release
      of p in flight, a user thread can go on. */
  lemma UserThreadEnabled(cfg: Config, st: State, k: nat, p: nat) returns (act: Action)
    requires Inv(cfg, st) && ArrivalsIn(cfg, st)
    requires p < |st| && (forall q :: 0 <= q < |st| ==> st[q].entered >= k) && Left(st[p]) < k
    requires p != 0 ==> InFlight(0, p, st[0], st[p]) == []
    ensures OfUser(act) && Can(cfg, st, act)
  {
    hide Flow, AllProper, SnapsOk;
    assert PeOk(cfg.N(), 0, st[0]) && PeOk(cfg.N(), p, st[p]);
    if st[0].ctl.Releasing? {
      act := if st[0].ctl.next < |st| then Release else Done;
    } else if st[0].ctl.Clearing? {
      act := Collect;
    } else if st[0].ctl.Collecting? && st[0].ctl.next >= |st| {
      act := Turn;
    } else if p != 0 && st[p].ctl.Arriving? {
      act := Arrive(p);
    } else if p != 0 && st[p].ctl.Leaving? {
      act := Leave(p);
    } else if p != 0 && st[p].flags[p] {
      act := See(p);
    } else {
      act := CollectingEnabled(cfg, st, k, p);
    }
  }

  /** PE 0 itself is still collecting for call k. */
  lemma CollectingEnabled(cfg: Config, st: State, k: nat, p: nat) returns (act: Action)
    requires Inv(cfg, st) && ArrivalsIn(cfg, st)
    requires p < |st| && (forall q :: 0 <= q < |st| ==> st[q].entered >= k) && Left(st[p]) < k
    requires p != 0 ==> InFlight(0, p, st[0], st[p]) == [] && st[p].ctl.Waiting? && p < |st[p].flags| && !st[p].flags[p]
    requires !st[0].ctl.Releasing? && !st[0].ctl.Clearing? && (st[0].ctl.Collecting? ==> st[0].ctl.next < |st|)
    ensures OfUser(act) && Can(cfg, st, act)
  {
    hide Flow, AllProper, SnapsOk;
    assert PeOk(cfg.N(), 0, st[0]) && PeOk(cfg.N(), p, st[p]);
    if p != 0 { ReleaseSettled(cfg, st, p); }
    var j := st[0].ctl.next;
    ArrivalSettled(cfg, st, j);
    assert PeOk(cfg.N(), j, st[j]);
    act := if st[j].ctl.Arriving? then Arrive(j) else SeeNext;
  }

  /** A step that the worker of w takes. */
  predicate ByWorker(act: Action, w: nat)
  {
    (act.Work? || act.WorkNbi?) && act.p == w
  }

  /** Nothing moves any more except, maybe, on the channel from a to b and at the worker of w. */
  ghost predicate Idle(st: State, a: nat, b: nat, w: nat)
  {
    && (forall q :: 0 <= q < |st| ==> st[q].sendQ == [])
    && (forall q :: 0 <= q < |st| && q != w ==> st[q].workQ == [])
    && (forall c, d :: 0 <= c < |st| && 0 <= d < |st| && d < |st[c].wire| && (c, d) != (a, b) ==> st[c].wire[d] == [])
  }

  /** A step of the pipeline that leaves that channel and that worker alone, if there is one. */
  lemma PipelineStep(cfg: Config, st: State, a: nat, b: nat, w: nat) returns (r: Option<Action>)
    requires Shaped(cfg, st)
    ensures r.None? ==> Idle(st, a, b, w)
    ensures r.Some? ==>
              && Internal(r.value) && !OfUser(r.value) && r.value != Recv(a, b) && !ByWorker(r.value, w)
              && Can(cfg, st, r.value)
  {
    hide PeShaped;
    if q :| 0 <= q < |st| && st[q].sendQ != [] {
      r := Some(Send(q));
    } else if q :| 0 <= q < |st| && q != w && st[q].workQ != [] {
      r := Some(if st[q].workQ[0].Received? then Work(q) else WorkNbi(q, seq(st[q].workQ[0].count, _ => 0)));
    } else if c, d :| 0 <= c < |st| && 0 <= d < |st| && d < |st[c].wire| && (c, d) != (a, b) && st[c].wire[d] != [] {
      r := Some(Recv(c, d));
    } else {
      r := None;
    }
  }

  /** No packet waits for the worker of this PE. */
  ghost predicate NothingReceived(pe: Pe, n: nat)
  {
    forall i :: 0 <= i < n ==> FromOrigin(pe.workQ, i) == []
  }

  lemma IdleSettled(cfg: Config, st: State, a: nat, b: nat, w: nat, i: nat)
    requires Inv(cfg, st) && Idle(st, a, b, w) && a != 0 && b != 0 && 0 < i < |st|
    ensures w != 0 || NothingReceived(st[0], |st|) ==> InFlight(i, 0, st[i], st[0]) == []
    ensures w != i || cfg.Local(0, i) ==> InFlight(0, i, st[0], st[i]) == []
  {
    assert PeShaped(cfg, st[i]) && PeShaped(cfg, st[0]);
    assert Flow(cfg, 0, i, st[0], st[i]);
  }

  /** Until p has left call k, a runtime step is enabled that does not read from the channel of
      two given PEs other than PE 0 and is not one of the worker of w: those may be slow. The
      worker may not be the one that p's release goes through, nor PE 0's while arrivals wait
      for it. */
  lemma BarrierEnabled(cfg: Config, st: State, k: nat, p: nat, a: nat, b: nat, w: nat) returns (act: Action)
    requires Inv(cfg, st) && a != 0 && b != 0
    requires p < |st| && (forall q :: 0 <= q < |st| ==> st[q].entered >= k) && Left(st[p]) < k
    requires w == 0 ==> NothingReceived(st[0], |st|)
    requires w == p && p != 0 ==> cfg.Local(0, p)
    ensures Internal(act) && act != Recv(a, b) && !ByWorker(act, w) && Can(cfg, st, act)
  {
    var r := PipelineStep(cfg, st, a, b, w);
    if r.Some? {
      act := r.value;
    } else {
      forall i | 0 < i < |st| ensures InFlight(i, 0, st[i], st[0]) == [] {
        IdleSettled(cfg, st, a, b, w, i);
      }
      if p != 0 { IdleSettled(cfg, st, a, b, w, p); }
      act := UserThreadEnabled(cfg, st, k, p);
    }
  }

  /** From any reachable state in which every PE has made barrier call k: until all have left
      it a runtime step is enabled, and runtime steps cannot go on for ever. */
  lemma BarrierIsLive(cfg: Config, acts: seq<Action>, st: State, k: nat)
    requires cfg.N() > 0 && Runs(cfg, Init(cfg), acts, st)
    requires forall q :: 0 <= q < |st| ==> st[q].entered >= k
    ensures Shaped(cfg, st) && TotalLoad(cfg.N(), st) >= 0
    ensures (forall q :: 0 <= q < |st| ==> Left(st[q]) >= k) || exists act :: Internal(act) && Can(cfg, st, act)
    ensures forall act :: Internal(act) && Can(cfg, st, act) ==>
              0 <= TotalLoad(cfg.N(), Do(cfg, st, act)) < TotalLoad(cfg.N(), st)
  {
    InitInv(cfg);
    RunKeeps(cfg, Init(cfg), acts, st);
    LoadsNonNegative(cfg, st);
    if p :| 0 <= p < |st| && Left(st[p]) < k {
      var act := BarrierEnabled(cfg, st, k, p, cfg.N(), cfg.N(), cfg.N());
    }
    forall act | Internal(act) && Can(cfg, st, act)
      ensures 0 <= TotalLoad(cfg.N(), Do(cfg, st, act)) < TotalLoad(cfg.N(), st)
    {
      assert PeOk(cfg.N(), 0, st[0]);
      InternalDrops(cfg, st, act);
      StepKeeps(cfg, st, act);
      LoadsNonNegative(cfg, Do(cfg, st, act));
    }
  }
}

/** The flag barrier of comm_barrier_all over asynchronous puts: what every action keeps. */
module Barrier {
  import opened Wiring
  import opened Delivery
  import opened Conservation

  function Flags(puts: seq<Put>): nat
  {
    if puts == [] then 0
    else Flags(puts[..|puts| - 1]) + (if puts[|puts| - 1].Flag? then 1 else 0)
  }

  lemma FlagsAppend(puts: seq<Put>, put: Put)
    ensures Flags(puts + [put]) == Flags(puts) + (if put.Flag? then 1 else 0)
  {
    assert (puts + [put])[..|puts|] == puts;
  }

  lemma {:induction false} FlagsPrefix(a: seq<Put>, b: seq<Put>)
    requires a <= b
    ensures Flags(a) <= Flags(b)
    decreases |b|
  {
    if |a| == |b| {
      assert a == b;
    } else {
      FlagsPrefix(a, b[..|b| - 1]);
    }
  }

  // ---- Barrier calls, counted from the control state ----

  /** Arrival signals PE i has issued. */
  function Arrived(pe: Pe): int { if pe.ctl.Arriving? then pe.entered - 1 else pe.entered }

  /** Barrier calls a PE has left. */
  function Left(pe: Pe): int { if pe.ctl.Out? then pe.entered else pe.entered - 1 }

  /** Arrival signals of i that PE 0 has consumed. */
  function Consumed(root: Pe, i: nat): int
  {
    if (root.ctl.Collecting? || root.ctl.Clearing?) && i >= root.ctl.next then root.entered - 1 else root.entered
  }

  /** Release signals PE 0 has issued to i. */
  function Released(root: Pe, i: nat): int
  {
    if root.ctl.Collecting? || root.ctl.Clearing? || (root.ctl.Releasing? && i >= root.ctl.next)
    then root.entered - 1
    else root.entered
  }

  function Bit(b: bool): int { if b then 1 else 0 }

  predicate ControlOk(n: nat, p: nat, pe: Pe)
  {
    && (!pe.ctl.Out? ==> pe.entered > 0)
    && match pe.ctl
       case Out => true
       case Arriving => p != 0
       case Waiting => p != 0
       case Leaving => p != 0 && p < |pe.flags| && pe.flags[p]
       case Collecting(next) => p == 0 && 1 <= next <= n
       case Clearing(next) => p == 0 && 1 <= next < n && next < |pe.flags| && pe.flags[next]
       case Releasing(next) => p == 0 && 1 <= next <= n
  }

  /** The two slots shared by PE 0 and PE i: a set flag is the one signal written and not consumed. */
  ghost predicate Signals(i: nat, pe: Pe, root: Pe)
  {
    && 0 < i < |root.got| && i < |root.flags| && i < |root.handed| && i < |pe.flags| && 0 < |pe.got| && 0 < |pe.handed|
    && Flags(pe.handed[0]) == Arrived(pe)
    && Flags(root.got[i]) == Consumed(root, i) + Bit(root.flags[i])
    && Flags(root.handed[i]) == Released(root, i)
    && Flags(pe.got[0]) == Left(pe) + Bit(pe.flags[i])
  }

  /** A signal between a and b is the arrival of a at PE 0 or the release of b by PE 0. */
  predicate Proper(a: nat, b: nat, put: Put)
  {
    put.Flag? ==> (a != 0 && b == 0 && put.slot == a) || (a == 0 && b != 0 && put.slot == b)
  }

  ghost predicate AllProper(a: nat, pe: Pe)
  {
    forall b, k :: 0 <= b < |pe.handed| && 0 <= k < |pe.handed[b]| ==> Proper(a, b, pe.handed[b][k])
  }

  /** What was handed over before barrier call k is a prefix of what is handed over now, and
      holds exactly the signals of earlier calls. */
  ghost predicate SnapOk(p: nat, k: nat, snap: seq<seq<Put>>, handed: seq<seq<Put>>)
  {
    && |snap| == |handed|
    && (forall b :: 0 <= b < |snap| ==> snap[b] <= handed[b])
    && (forall b :: 0 <= b < |snap| && (p == 0) != (b == 0) ==> Flags(snap[b]) == k)
  }

  ghost predicate SnapsOk(p: nat, pe: Pe)
  {
    && |pe.snaps| == pe.entered
    && (forall k :: 0 <= k < |pe.snaps| ==> SnapOk(p, k, pe.snaps[k], pe.handed))
  }

  ghost predicate PeOk(n: nat, p: nat, pe: Pe)
  {
    ControlOk(n, p, pe) && AllProper(p, pe) && SnapsOk(p, pe)
  }

  ghost predicate Inv(cfg: Config, st: State)
  {
    && Flows(cfg, st)
    && (forall p :: 0 <= p < |st| ==> PeOk(cfg.N(), p, st[p]))
    && (forall i :: 0 < i < |st| ==> Signals(i, st[i], st[0]))
  }

  lemma InitInv(cfg: Config)
    requires cfg.N() > 0
    ensures Inv(cfg, Init(cfg))
  {
    InitFlows(cfg);
  }

  // ---- Consequences used by every step ----

  lemma GotIsPrefix(cfg: Config, st: State, a: nat, b: nat)
    requires Flows(cfg, st) && a < |st| && b < |st|
    ensures st[b].got[a] <= st[a].handed[b] && Flags(st[b].got[a]) <= Flags(st[a].handed[b])
  {
    assert Flow(cfg, a, b, st[a], st[b]);
    FlagsPrefix(st[b].got[a], st[a].handed[b]);
  }

  /** The counters of PE 0 and PE i chase each other round: no two are more than one apart. */
  lemma Chase(cfg: Config, st: State, i: nat)
    requires Inv(cfg, st) && 0 < i < |st|
    ensures Left(st[i]) <= Released(st[0], i) <= Consumed(st[0], i) <= Arrived(st[i]) <= Left(st[i]) + 1
  {
    GotIsPrefix(cfg, st, i, 0);
    GotIsPrefix(cfg, st, 0, i);
    assert Signals(i, st[i], st[0]) && PeOk(cfg.N(), i, st[i]) && PeOk(cfg.N(), 0, st[0]);
  }

  /** The job at the head of a work queue is the next put handed over by its origin. */
  lemma HeadJob(cfg: Config, st: State, p: nat)
    requires Flows(cfg, st) && Can(cfg, st, Work(p))
    ensures var job := st[p].workQ[0];
            && job.origin < |st| && cfg.Connected(job.origin, p)
            && |st[p].got[job.origin]| < |st[job.origin].handed[p]|
            && st[job.origin].handed[p][|st[p].got[job.origin]|] == job.put
            && st[p].got[job.origin] + [job.put] <= st[job.origin].handed[p]
  {
    var job := st[p].workQ[0];
    assert PeShaped(cfg, st[p]) && JobShaped(cfg, job);
    assert Flow(cfg, job.origin, p, st[job.origin], st[p]);
    HeadOfFlow(cfg, job.origin, p, st[job.origin], st[p]);
  }

  lemma HeadOfFlow(cfg: Config, a: nat, b: nat, pa: Pe, pb: Pe)
    requires a < cfg.N() && b < cfg.N() && b < |pa.wire| && b < |pa.handed| && a < |pb.got|
    requires Flow(cfg, a, b, pa, pb) && pb.workQ != [] && pb.workQ[0].Received? && pb.workQ[0].origin == a
    ensures cfg.Connected(a, b) && |pb.got[a]| < |pa.handed[b]|
    ensures pa.handed[b][|pb.got[a]|] == pb.workQ[0].put && pb.got[a] + [pb.workQ[0].put] <= pa.handed[b]
  {
    var put := pb.workQ[0].put;
    assert FromOrigin(pb.workQ, a) == [put] + FromOrigin(pb.workQ[1..], a);
    var rest := FromOrigin(pb.workQ[1..], a) + pa.wire[b] + SendTo(pa.sendQ, b);
    assert InFlight(a, b, pa, pb) == [put] + rest;
    AppendAssociative(pb.got[a], [put], rest);
  }

  // ---- Steps on one record ----

  lemma EnterOk(cfg: Config, st: State, p: nat)
    requires Inv(cfg, st) && Can(cfg, st, Enter(p))
    ensures PeOk(cfg.N(), p, Do(cfg, st, Enter(p))[p])
  {
    var pe' := Do(cfg, st, Enter(p))[p];
    assert PeOk(cfg.N(), p, st[p]) && PeShaped(cfg, st[p]);
    forall b | 0 <= b < |pe'.handed| && (p == 0) != (b == 0) ensures Flags(st[p].handed[b]) == st[p].entered {
      if p == 0 { assert Signals(b, st[b], st[0]); } else { assert Signals(p, st[p], st[0]); }
    }
  }

  /** What comm_put from p to dest does to the record of PE q. */
  ghost predicate PutEffect(cfg: Config, p: nat, dest: nat, put: Put, q: nat, pe: Pe, pe': Pe)
    requires p < cfg.N() && dest < cfg.N()
  {
    var here := cfg.Local(p, dest) && q == dest;
    && |pe'.handed| == |pe.handed| && |pe'.got| == |pe.got| && |pe'.flags| == |pe.flags|
    && pe'.ctl == pe.ctl && pe'.entered == pe.entered && pe'.snaps == pe.snaps
    && (forall b :: 0 <= b < |pe.handed| ==>
          pe'.handed[b] == if q == p && b == dest then pe.handed[b] + [put] else pe.handed[b])
    && (forall a :: 0 <= a < |pe.got| ==> pe'.got[a] == if here && a == p then pe.got[a] + [put] else pe.got[a])
    && (forall i :: 0 <= i < |pe.flags| ==> pe'.flags[i] == ((here && put == Flag(i)) || pe.flags[i]))
  }

  lemma CommPutEffect(cfg: Config, st: State, p: nat, dest: nat, put: Put, q: nat)
    requires Shaped(cfg, st) && p < |st| && dest < |st| && PutShaped(cfg, put) && q < |st|
    ensures PutEffect(cfg, p, dest, put, q, st[q], CommPut(cfg, st, p, dest, put)[q])
  {
    assert PeShaped(cfg, st[q]) && PeShaped(cfg, st[p]) && PeShaped(cfg, st[dest]);
  }

  lemma PeOkAfterPut(cfg: Config, p: nat, dest: nat, put: Put, q: nat, pe: Pe, pe': Pe)
    requires p < cfg.N() && dest < cfg.N() && PutEffect(cfg, p, dest, put, q, pe, pe')
    requires PeOk(cfg.N(), q, pe) && Proper(p, dest, put)
    ensures PeOk(cfg.N(), q, pe')
  {
    forall b | 0 <= b < |pe'.handed| ensures pe.handed[b] <= pe'.handed[b] {}
    forall b, k | 0 <= b < |pe'.handed| && 0 <= k < |pe'.handed[b]| ensures Proper(q, b, pe'.handed[b][k]) {
      if k < |pe.handed[b]| { assert pe'.handed[b][k] == pe.handed[b][k]; }
    }
    forall k | 0 <= k < |pe'.snaps| ensures SnapOk(q, k, pe'.snaps[k], pe'.handed) {
      assert SnapOk(q, k, pe.snaps[k], pe.handed);
    }
  }

  /** What a put does to the signals between PE i and PE 0. */
  lemma SignalsAfterPut(cfg: Config, p: nat, dest: nat, put: Put, i: nat, pe: Pe, pe': Pe, root: Pe, root': Pe)
    requires p < cfg.N() && dest < cfg.N() && Signals(i, pe, root)
    requires PutEffect(cfg, p, dest, put, i, pe, pe') && PutEffect(cfg, p, dest, put, 0, root, root')
    requires Proper(p, dest, put)
    ensures 0 < i < |root'.got| && i < |root'.flags| && i < |root'.handed|
    ensures i < |pe'.flags| && 0 < |pe'.got| && 0 < |pe'.handed|
    ensures pe'.ctl == pe.ctl && pe'.entered == pe.entered && root'.ctl == root.ctl && root'.entered == root.entered
    ensures var sent := if put.Flag? then 1 else 0;
            && Flags(pe'.handed[0]) == Arrived(pe) + (if p == i && dest == 0 then sent else 0)
            && Flags(root'.handed[i]) == Released(root, i) + (if p == 0 && dest == i then sent else 0)
            && Flags(root'.got[i]) == Consumed(root, i) + Bit(root.flags[i])
                                      + (if p == i && dest == 0 && cfg.Local(p, dest) then sent else 0)
            && Flags(pe'.got[0]) == Left(pe) + Bit(pe.flags[i])
                                    + (if p == 0 && dest == i && cfg.Local(p, dest) then sent else 0)
            && (root'.flags[i] <==> root.flags[i] || (put.Flag? && p == i && dest == 0 && cfg.Local(p, dest)))
            && (pe'.flags[i] <==> pe.flags[i] || (put.Flag? && p == 0 && dest == i && cfg.Local(p, dest)))
  {
    FlagsAppend(pe.handed[0], put);
    FlagsAppend(root.handed[i], put);
    FlagsAppend(root.got[i], put);
    FlagsAppend(pe.got[0], put);
  }

  lemma PutPeOks(cfg: Config, st: State, p: nat, dest: nat, put: Put)
    requires Shaped(cfg, st) && p < |st| && dest < |st| && PutShaped(cfg, put) && Proper(p, dest, put)
    requires forall q :: 0 <= q < |st| ==> PeOk(cfg.N(), q, st[q])
    ensures var st' := CommPut(cfg, st, p, dest, put); forall q :: 0 <= q < |st'| ==> PeOk(cfg.N(), q, st'[q])
  {
    var st' := CommPut(cfg, st, p, dest, put);
    forall q | 0 <= q < |st'| ensures PeOk(cfg.N(), q, st'[q]) {
      CommPutEffect(cfg, st, p, dest, put, q);
      PeOkAfterPut(cfg, p, dest, put, q, st[q], st'[q]);
    }
  }

  /** When the user thread of p may move on to `ctl` with its put. */
  ghost predicate MovesOn(cfg: Config, p: nat, dest: nat, put: Put, ctl0: Control, slotSet: bool, ctl: Control)
    requires p < cfg.N() && dest < cfg.N()
  {
    if put.Data? then ctl == ctl0
    else
      && (cfg.Local(p, dest) ==> !slotSet)
      && if p == 0 then ctl0 == Releasing(dest) && ctl == Releasing(dest + 1) else ctl0 == Arriving && ctl == Waiting
  }

  lemma ClientMoves(cfg: Config, dest: nat, put: Put, i: nat, pe: Pe, pe': Pe, root: Pe, root': Pe, ctl: Control)
    requires i < cfg.N() && dest < cfg.N() && Signals(i, pe, root)
    requires PutEffect(cfg, i, dest, put, i, pe, pe') && PutEffect(cfg, i, dest, put, 0, root, root')
    requires Proper(i, dest, put) && MovesOn(cfg, i, dest, put, pe.ctl, root.flags[i], ctl)
    ensures Signals(i, pe'.(ctl := ctl), root')
  {
    SignalsAfterPut(cfg, i, dest, put, i, pe, pe', root, root');
    hide PutEffect, Flags;
  }

  lemma RootMoves(cfg: Config, dest: nat, put: Put, i: nat, pe: Pe, pe': Pe, root: Pe, root': Pe, ctl: Control)
    requires 0 < cfg.N() && dest < cfg.N() && Signals(i, pe, root)
    requires PutEffect(cfg, 0, dest, put, i, pe, pe') && PutEffect(cfg, 0, dest, put, 0, root, root')
    requires Proper(0, dest, put)
    requires dest == i ==> MovesOn(cfg, 0, dest, put, root.ctl, pe.flags[i], ctl)
    requires dest != i ==> ctl == root.ctl || (root.ctl == Releasing(dest) && ctl == Releasing(dest + 1))
    ensures Signals(i, pe', root'.(ctl := ctl))
  {
    SignalsAfterPut(cfg, 0, dest, put, i, pe, pe', root, root');
    hide PutEffect, Flags;
  }

  lemma StrangerPuts(cfg: Config, p: nat, dest: nat, put: Put, i: nat, pe: Pe, pe': Pe, root: Pe, root': Pe)
    requires p < cfg.N() && dest < cfg.N() && p != i && p != 0 && Signals(i, pe, root)
    requires PutEffect(cfg, p, dest, put, i, pe, pe') && PutEffect(cfg, p, dest, put, 0, root, root')
    requires Proper(p, dest, put)
    ensures Signals(i, pe', root')
  {
    SignalsAfterPut(cfg, p, dest, put, i, pe, pe', root, root');
    hide PutEffect, Flags;
  }

  /** The signals between PE i and PE 0 survive a put and the step that comes with it. */
  lemma SignalsMoveOn(cfg: Config, p: nat, dest: nat, put: Put, i: nat, pe: Pe, pe': Pe, root: Pe, root': Pe,
                      ctl: Control)
    requires p < cfg.N() && dest < cfg.N() && Signals(i, pe, root)
    requires PutEffect(cfg, p, dest, put, i, pe, pe') && PutEffect(cfg, p, dest, put, 0, root, root')
    requires Proper(p, dest, put)
    requires p == i ==> MovesOn(cfg, p, dest, put, pe.ctl, root.flags[i], ctl)
    requires p == 0 && dest == i ==> MovesOn(cfg, p, dest, put, root.ctl, pe.flags[i], ctl)
    requires p == 0 && dest != i ==> ctl == root.ctl || (root.ctl == Releasing(dest) && ctl == Releasing(dest + 1))
    ensures Signals(i, if p == i then pe'.(ctl := ctl) else pe', if p == 0 then root'.(ctl := ctl) else root')
  {
    assert 0 < i;
    hide PutEffect, Flags, Signals;
    if p == i {
      ClientMoves(cfg, dest, put, i, pe, pe', root, root', ctl);
    } else if p == 0 {
      RootMoves(cfg, dest, put, i, pe, pe', root, root', ctl);
    } else {
      StrangerPuts(cfg, p, dest, put, i, pe, pe', root, root');
    }
  }

  lemma PutSignals(cfg: Config, st: State, p: nat, dest: nat, put: Put, i: nat, ctl: Control)
    requires Shaped(cfg, st) && p < |st| && dest < |st| && PutShaped(cfg, put) && Proper(p, dest, put)
    requires 0 < i < |st| && Signals(i, st[i], st[0])
    requires put.Flag? ==> put.slot < |st[dest].flags|
    requires MovesOn(cfg, p, dest, put, st[p].ctl, put.Flag? && st[dest].flags[put.slot], ctl)
    ensures var st' := WithControl(CommPut(cfg, st, p, dest, put), p, ctl); Signals(i, st'[i], st'[0])
  {
    var st1 := CommPut(cfg, st, p, dest, put);
    CommPutEffect(cfg, st, p, dest, put, i);
    CommPutEffect(cfg, st, p, dest, put, 0);
    SignalsMoveOn(cfg, p, dest, put, i, st[i], st1[i], st[0], st1[0], ctl);
  }

  /** A put that is not a signal disturbs no signal. */
  lemma DataPutKeeps(cfg: Config, st: State, p: nat, dest: nat, put: Put)
    requires Inv(cfg, st) && p < |st| && dest < |st| && PutShaped(cfg, put) && put.Data?
    ensures Inv(cfg, CommPut(cfg, st, p, dest, put))
  {
    CommPutKeeps(cfg, st, p, dest, put);
    PutPeOks(cfg, st, p, dest, put);
    CommPutEffect(cfg, st, p, dest, put, p);
    var st' := CommPut(cfg, st, p, dest, put);
    assert WithControl(st', p, st[p].ctl) == st';
    forall i | 0 < i < |st'| ensures Signals(i, st'[i], st'[0]) {
      PutSignals(cfg, st, p, dest, put, i, st[p].ctl);
    }
  }

  /** An arrival finds its slot at PE 0 empty. */
  lemma ArrivalSlotFree(cfg: Config, st: State, p: nat)
    requires Inv(cfg, st) && Can(cfg, st, Arrive(p))
    ensures p != 0 && (cfg.Local(p, 0) ==> !st[0].flags[p])
  {
    assert PeOk(cfg.N(), p, st[p]);
    Chase(cfg, st, p);
    assert Signals(p, st[p], st[0]);
    assert Flow(cfg, p, 0, st[p], st[0]);
  }

  /** A release finds its slot at the released PE empty. */
  lemma ReleaseSlotFree(cfg: Config, st: State)
    requires Inv(cfg, st) && Can(cfg, st, Release)
    ensures var i := st[0].ctl.next; 0 < i && (cfg.Local(0, i) ==> !st[i].flags[i])
  {
    var i := st[0].ctl.next;
    assert PeOk(cfg.N(), 0, st[0]);
    Chase(cfg, st, i);
    assert Signals(i, st[i], st[0]);
    assert Flow(cfg, 0, i, st[0], st[i]);
  }

  /** A signal put, and the step of the user thread that comes with it. */
  lemma SignalPutKeeps(cfg: Config, st: State, p: nat, dest: nat, put: Put, ctl: Control)
    requires Inv(cfg, st) && p < |st| && dest < |st|
    requires put.Flag? && PutShaped(cfg, put) && Proper(p, dest, put) && put.slot < |st[dest].flags|
    requires MovesOn(cfg, p, dest, put, st[p].ctl, st[dest].flags[put.slot], ctl)
    requires Flows(cfg, WithControl(CommPut(cfg, st, p, dest, put), p, ctl))
    ensures Inv(cfg, WithControl(CommPut(cfg, st, p, dest, put), p, ctl))
  {
    PutPeOks(cfg, st, p, dest, put);
    var st1 := CommPut(cfg, st, p, dest, put);
    var st' := WithControl(st1, p, ctl);
    assert PeOk(cfg.N(), p, st[p]) && PeOk(cfg.N(), p, st1[p]);
    ControlMoves(cfg, p, dest, put, st[p], st1[p], ctl) by {
      CommPutEffect(cfg, st, p, dest, put, p);
    }
    forall i | 0 < i < |st'| ensures Signals(i, st'[i], st'[0]) {
      PutSignals(cfg, st, p, dest, put, i, ctl);
    }
  }

  lemma ControlMoves(cfg: Config, p: nat, dest: nat, put: Put, pe: Pe, pe': Pe, ctl: Control)
    requires p < cfg.N() && dest < cfg.N() && put.Flag? && PutEffect(cfg, p, dest, put, p, pe, pe')
    requires PeOk(cfg.N(), p, pe) && PeOk(cfg.N(), p, pe')
    requires MovesOn(cfg, p, dest, put, pe.ctl, false, ctl)
    ensures PeOk(cfg.N(), p, pe'.(ctl := ctl))
  {}

  lemma ArriveKeeps(cfg: Config, st: State, p: nat)
    requires Inv(cfg, st) && Can(cfg, st, Arrive(p))
    ensures Inv(cfg, Do(cfg, st, Arrive(p)))
  {
    ArrivalSlotFree(cfg, st, p);
    FlowsKept(cfg, st, Arrive(p));
    assert PeShaped(cfg, st[0]);
    SignalPutKeeps(cfg, st, p, 0, Flag(p), Waiting);
  }

  lemma ReleaseKeeps(cfg: Config, st: State)
    requires Inv(cfg, st) && Can(cfg, st, Release)
    ensures Inv(cfg, Do(cfg, st, Release))
  {
    hide PeOk, Signals, Flow;
    ReleaseSlotFree(cfg, st);
    FlowsKept(cfg, st, Release);
    var i := st[0].ctl.next;
    assert PeShaped(cfg, st[i]);
    SignalPutKeeps(cfg, st, 0, i, Flag(i), Releasing(i + 1));
  }

  // ---- Steps that change one record ----

  lemma OneChanged(cfg: Config, st: State, p: nat, pe: Pe)
    requires Inv(cfg, st) && p < |st| && Flows(cfg, st[p := pe]) && PeOk(cfg.N(), p, pe)
    requires p > 0 ==> Signals(p, pe, st[0])
    requires p == 0 ==> forall i :: 0 < i < |st| ==> Signals(i, st[i], pe)
    ensures Inv(cfg, st[p := pe])
  {
    var st' := st[p := pe];
    forall i | 0 < i < |st'| ensures Signals(i, st'[i], st'[0]) {
      assert Signals(i, st[i], st[0]);
    }
  }

  lemma EnterKeeps(cfg: Config, st: State, p: nat)
    requires Inv(cfg, st) && Can(cfg, st, Enter(p))
    ensures Inv(cfg, Do(cfg, st, Enter(p)))
  {
    FlowsKept(cfg, st, Enter(p));
    EnterOk(cfg, st, p);
    var pe := Do(cfg, st, Enter(p))[p];
    if p > 0 { assert Signals(p, st[p], st[0]); }
    forall i | p == 0 && 0 < i < |st| ensures Signals(i, st[i], pe) {
      assert Signals(i, st[i], st[0]);
    }
    OneChanged(cfg, st, p, pe);
  }

  lemma LeaveKeeps(cfg: Config, st: State, p: nat, act: Action)
    requires Inv(cfg, st) && Can(cfg, st, act) && (act == See(p) || act == Leave(p))
    ensures Inv(cfg, Do(cfg, st, act))
  {
    FlowsKept(cfg, st, act);
    var pe := Do(cfg, st, act)[p];
    assert PeOk(cfg.N(), p, st[p]);
    assert Signals(p, st[p], st[0]);
    OneChanged(cfg, st, p, pe);
  }

  lemma RootKeeps(cfg: Config, st: State, act: Action)
    requires Inv(cfg, st) && Can(cfg, st, act) && (act.SeeNext? || act.Collect? || act.Turn? || act.Done?)
    ensures Inv(cfg, Do(cfg, st, act))
  {
    FlowsKept(cfg, st, act);
    var pe := Do(cfg, st, act)[0];
    assert PeOk(cfg.N(), 0, st[0]);
    forall i | 0 < i < |st| ensures Signals(i, st[i], pe) {
      assert Signals(i, st[i], st[0]);
    }
    OneChanged(cfg, st, 0, pe);
  }

  // ---- Steps of the pipeline ----

  /** Fields that signals and snapshots look at. */
  ghost predicate SameSignals(pe: Pe, pe': Pe)
  {
    && pe'.ctl == pe.ctl && pe'.entered == pe.entered && pe'.snaps == pe.snaps
    && pe'.handed == pe.handed && pe'.got == pe.got && pe'.flags == pe.flags
  }

  lemma QuietKeeps(cfg: Config, st: State, st': State)
    requires Inv(cfg, st) && Flows(cfg, st')
    requires forall q :: 0 <= q < |st| ==> SameSignals(st[q], st'[q])
    ensures Inv(cfg, st')
  {
    forall q | 0 <= q < |st'| ensures PeOk(cfg.N(), q, st'[q]) {
      assert PeOk(cfg.N(), q, st[q]);
    }
    forall i | 0 < i < |st'| ensures Signals(i, st'[i], st'[0]) {
      assert Signals(i, st[i], st[0]);
    }
  }

  /** A signal that reaches memory finds its slot empty, on any pair of hosts. */
  lemma DeliveredSlotFree(cfg: Config, st: State, p: nat)
    requires Inv(cfg, st) && Can(cfg, st, Work(p)) && st[p].workQ[0].put.Flag?
    ensures var job := st[p].workQ[0];
            && job.origin < |st|
            && Proper(job.origin, p, job.put) && job.put.slot < |st[p].flags|
            && !st[p].flags[job.put.slot]
  {
    HeadJob(cfg, st, p);
    var job := st[p].workQ[0];
    var a := job.origin;
    assert PeOk(cfg.N(), a, st[a]) && PeShaped(cfg, st[p]) && PeShaped(cfg, st[a]);
    assert Proper(a, p, job.put);
    FlagsAppend(st[p].got[a], job.put);
    FlagsPrefix(st[p].got[a] + [job.put], st[a].handed[p]);
    var i := job.put.slot;
    Chase(cfg, st, i);
    assert Signals(i, st[i], st[0]);
  }

  lemma WrittenSignals(i: nat, pe: Pe, root: Pe, p: nat, origin: nat, put: Put, pe': Pe)
    requires Signals(i, pe, root)
    requires p == i || p == 0
    requires var old' := if p == 0 then root else pe;
             && origin < |old'.got| && put.Flag? ==> put.slot < |old'.flags|
    requires var old' := if p == 0 then root else pe;
             && pe'.ctl == old'.ctl && pe'.entered == old'.entered && pe'.handed == old'.handed
             && origin < |old'.got| && pe'.got == old'.got[origin := old'.got[origin] + [put]]
             && pe'.flags == if put.Flag? && put.slot < |old'.flags| then old'.flags[put.slot := true] else old'.flags
    requires Proper(origin, p, put)
    requires put.Flag? ==> !(if p == 0 then root else pe).flags[put.slot]
    ensures if p == 0 then Signals(i, pe, pe') else Signals(i, pe', root)
  {
    if p == 0 {
      FlagsAppend(root.got[origin], put);
    } else {
      FlagsAppend(pe.got[origin], put);
    }
  }

  lemma HeadProper(cfg: Config, st: State, p: nat)
    requires Inv(cfg, st) && Can(cfg, st, Work(p))
    ensures var job := st[p].workQ[0];
            && job.origin < |st[p].got|
            && Proper(job.origin, p, job.put)
            && (job.put.Flag? ==> job.put.slot < |st[p].flags| && !st[p].flags[job.put.slot])
  {
    HeadJob(cfg, st, p);
    var job := st[p].workQ[0];
    assert PeShaped(cfg, st[p]) && PeShaped(cfg, st[job.origin]);
    assert PeOk(cfg.N(), job.origin, st[job.origin]);
    if job.put.Flag? { DeliveredSlotFree(cfg, st, p); }
  }

  lemma WorkKeepsInv(cfg: Config, st: State, p: nat)
    requires Inv(cfg, st) && Can(cfg, st, Work(p))
    ensures Inv(cfg, Do(cfg, st, Work(p)))
  {
    WorkKeeps(cfg, st, p);
    HeadProper(cfg, st, p);
    var job := st[p].workQ[0];
    assert PeOk(cfg.N(), p, st[p]) && PeShaped(cfg, st[p]) && JobShaped(cfg, job);
    var pe' := Written(st[p].(workQ := st[p].workQ[1..]), job.origin, job.put);
    if p > 0 {
      assert Signals(p, st[p], st[0]);
      WrittenSignals(p, st[p], st[0], p, job.origin, job.put, pe');
    }
    forall i | p == 0 && 0 < i < |st| ensures Signals(i, st[i], pe') {
      assert Signals(i, st[i], st[0]);
      WrittenSignals(i, st[i], st[0], 0, job.origin, job.put, pe');
    }
    OneChanged(cfg, st, p, pe');
  }

  lemma WorkNbiKeepsInv(cfg: Config, st: State, p: nat, source: seq<nat>)
    requires Inv(cfg, st) && Can(cfg, st, WorkNbi(p, source))
    ensures Inv(cfg, Do(cfg, st, WorkNbi(p, source)))
  {
    var job := st[p].workQ[0];
    assert PeShaped(cfg, st[p]) && JobShaped(cfg, job);
    var pe := NbiTaken(st[p]);
    assert PeShaped(cfg, pe);
    JobsKeep(cfg, st, p, pe);
    QuietKeeps(cfg, st, st[p := pe]);
    DataPutKeeps(cfg, st[p := pe], p, job.dest, Data(job.offset, source));
  }

  /** Moving a packet or queueing a job changes nothing a signal looks at. */
  lemma PipelineSame(cfg: Config, st: State, act: Action, q: nat)
    requires Shaped(cfg, st) && Can(cfg, st, act) && (act.UserPutNbi? || act.Send? || act.Recv?) && q < |st|
    ensures |Do(cfg, st, act)| == |st| && SameSignals(st[q], Do(cfg, st, act)[q])
  {}

  lemma PipelineKeeps(cfg: Config, st: State, act: Action)
    requires Inv(cfg, st) && Can(cfg, st, act) && (act.UserPutNbi? || act.Send? || act.Recv?)
    ensures Inv(cfg, Do(cfg, st, act))
  {
    FlowsKept(cfg, st, act);
    var st' := Do(cfg, st, act);
    forall q | 0 <= q < |st| ensures SameSignals(st[q], st'[q]) {
      PipelineSame(cfg, st, act, q);
    }
    QuietKeeps(cfg, st, st');
  }

  /** Every action keeps the invariant. */
  lemma StepKeeps(cfg: Config, st: State, act: Action)
    requires Inv(cfg, st) && Can(cfg, st, act)
    ensures Inv(cfg, Do(cfg, st, act))
  {
    match act
    case UserPut(p, dest, put) => DataPutKeeps(cfg, st, p, dest, put);
    case UserPutNbi(p, dest, offset, count) => PipelineKeeps(cfg, st, act);
    case Enter(p) => EnterKeeps(cfg, st, p);
    case Arrive(p) => ArriveKeeps(cfg, st, p);
    case See(p) => LeaveKeeps(cfg, st, p, act);
    case Leave(p) => LeaveKeeps(cfg, st, p, act);
    case SeeNext => RootKeeps(cfg, st, act);
    case Collect => RootKeeps(cfg, st, act);
    case Turn => RootKeeps(cfg, st, act);
    case Done => RootKeeps(cfg, st, act);
    case Release => ReleaseKeeps(cfg, st);
    case Send(p) => PipelineKeeps(cfg, st, act);
    case Recv(a, b) => PipelineKeeps(cfg, st, act);
    case Work(p) => WorkKeepsInv(cfg, st, p);
    case WorkNbi(p, source) => WorkNbiKeepsInv(cfg, st, p, source);
  }

  lemma {:induction false} RunKeeps(cfg: Config, from: State, acts: seq<Action>, st: State)
    requires Inv(cfg, from) && Runs(cfg, from, acts, st)
    ensures Inv(cfg, st)
    decreases |acts|
  {
    if acts != [] {
      StepKeeps(cfg, from, acts[0]);
      RunKeeps(cfg, Do(cfg, from, acts[0]), acts[1..], st);
    }
  }

  // ---- Safety of the barrier ----

  /** In every reachable state: no PE has left a barrier that some PE has not entered, and
      no PE is more than one barrier call ahead of another. */
  lemma BarrierSafety(cfg: Config, acts: seq<Action>, st: State, p: nat, q: nat)
    requires cfg.N() > 0 && Runs(cfg, Init(cfg), acts, st) && p < cfg.N() && q < cfg.N()
    ensures |st| == cfg.N()
    ensures Left(st[p]) <= st[q].entered
    ensures st[p].entered <= st[q].entered + 1
    ensures Left(st[p]) <= Left(st[q]) + 1
  {
    InitInv(cfg);
    RunKeeps(cfg, Init(cfg), acts, st);
    CountersClose(cfg, st, p, q);
  }

  lemma InvNonempty(cfg: Config, st: State)
    requires Inv(cfg, st)
    ensures |st| == cfg.N() && cfg.N() > 0 && Shaped(cfg, st)
  {}

  lemma CountersClose(cfg: Config, st: State, p: nat, q: nat)
    requires Inv(cfg, st) && p < |st| && q < |st|
    ensures Left(st[p]) <= st[q].entered
    ensures st[p].entered <= st[q].entered + 1
    ensures Left(st[p]) <= Left(st[q]) + 1
  {
    hide Flows, Signals, AllProper, SnapsOk;
    InvNonempty(cfg, st);
    assert PeOk(cfg.N(), p, st[p]) && PeOk(cfg.N(), q, st[q]) && PeOk(cfg.N(), 0, st[0]);
    if p > 0 { Chase(cfg, st, p); }
    if q > 0 { Chase(cfg, st, q); }
  }

  /** A put to a pSync slot always finds the slot 0, and at most one signal per slot has been
      issued and not consumed, whatever stage it is in. */
  lemma SlotsReusable(cfg: Config, acts: seq<Action>, st: State, i: nat)
    requires cfg.N() > 0 && Runs(cfg, Init(cfg), acts, st) && 0 < i < cfg.N()
    ensures |st| == cfg.N() && Shaped(cfg, st)
    ensures 0 <= Flags(st[i].handed[0]) - Consumed(st[0], i) <= 1
    ensures 0 <= Flags(st[0].handed[i]) - Left(st[i]) <= 1
    ensures Can(cfg, st, Arrive(i)) && cfg.Local(i, 0) ==> !st[0].flags[i]
    ensures Can(cfg, st, Release) && st[0].ctl.next == i && cfg.Local(0, i) ==> !st[i].flags[i]
    ensures forall p: nat :: Can(cfg, st, Work(p)) && st[p].workQ[0].put.Flag? ==>
              st[p].workQ[0].put.slot < |st[p].flags| && !st[p].flags[st[p].workQ[0].put.slot]
  {
    InitInv(cfg);
    RunKeeps(cfg, Init(cfg), acts, st);
    Chase(cfg, st, i);
    assert Signals(i, st[i], st[0]);
    if Can(cfg, st, Arrive(i)) { ArrivalSlotFree(cfg, st, i); }
    if Can(cfg, st, Release) { ReleaseSlotFree(cfg, st); }
    forall p: nat | Can(cfg, st, Work(p)) && st[p].workQ[0].put.Flag?
      ensures st[p].workQ[0].put.slot < |st[p].flags| && !st[p].flags[st[p].workQ[0].put.slot]
    {
      DeliveredSlotFree(cfg, st, p);
    }
  }
}

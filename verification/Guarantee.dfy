/** Exactly which pairs the barrier's memory guarantee covers, for the puts handed to comm_put
    before it, and exactly which pairs a put can cross at all. */
module Guarantee {
  import opened Topology
  import opened Delivery
  import opened Conservation
  import opened History
  import opened Barrier
  import opened Completion
  import opened Progress

  /** If b has left barrier call k, everything a had handed to comm_put for b before its own
      call k has reached b's memory: its blocking puts, and the nonblocking ones whose job had
      run by then. */
  ghost predicate Complete(st: State, a: nat, b: nat, k: nat)
  {
    && a < |st| && b < |st|
    && (k < Left(st[b]) ==>
          && k < |st[a].snaps| && b < |st[a].snaps[k]| && a < |st[b].got|
          && st[a].snaps[k][b] <= st[b].got[a])
  }

  /** The guarantee for a pair, over all runs and all barrier calls. */
  ghost predicate Guaranteed(cfg: Config, a: nat, b: nat)
  {
    forall acts: seq<Action>, st: State, k: nat :: Runs(cfg, Init(cfg), acts, st) ==> Complete(st, a, b, k)
  }

  lemma RunsCons(cfg: Config, from: State, act: Action, rest: seq<Action>, st: State)
    requires Shaped(cfg, from) && Can(cfg, from, act) && Runs(cfg, Do(cfg, from, act), rest, st)
    ensures Runs(cfg, from, [act] + rest, st)
  {
    assert ([act] + rest)[1..] == rest;
  }

  /** The state after the first action of a run: runs continue from there. */
  lemma RunsHead(cfg: Config, from: State, acts: seq<Action>, st: State) returns (next: State)
    requires acts != [] && Runs(cfg, from, acts, st)
    ensures Runs(cfg, next, acts[1..], st)
    ensures forall rest: seq<Action>, end: State :: Runs(cfg, next, rest, end) ==>
        Runs(cfg, from, [acts[0]] + rest, end)
  {
    next := Do(cfg, from, acts[0]);
    forall rest: seq<Action>, end: State | Runs(cfg, next, rest, end) ensures Runs(cfg, from, [acts[0]] + rest, end) {
      RunsCons(cfg, from, acts[0], rest, end);
    }
  }

  lemma {:induction false} RunsAppend(cfg: Config, from: State, acts: seq<Action>, mid: State, more: seq<Action>,
                                      st: State)
    returns (all: seq<Action>)
    requires Runs(cfg, from, acts, mid) && Runs(cfg, mid, more, st)
    ensures Runs(cfg, from, all, st)
    decreases |acts|
  {
    if acts == [] {
      all := more;
    } else {
      var next := RunsHead(cfg, from, acts, mid);
      var rest := RunsAppend(cfg, next, acts[1..], mid, more, st);
      all := [acts[0]] + rest;
    }
  }

  // ---- Holding one channel back ----

  /** Nothing of a has come out of the socket to b. */
  ghost predicate HeldBack(cfg: Config, st: State, a: nat, b: nat)
    requires Shaped(cfg, st) && a < cfg.N() && b < cfg.N()
  {
    cfg.pl.Remote(a, b) && st[b].got[a] == [] && FromOrigin(st[b].workQ, a) == []
  }

  lemma CommPutHolds(cfg: Config, st: State, p: nat, dest: nat, put: Put, a: nat, b: nat)
    requires Shaped(cfg, st) && p < |st| && dest < |st| && PutShaped(cfg, put)
    requires a < cfg.N() && b < cfg.N() && HeldBack(cfg, st, a, b)
    ensures var st' := CommPut(cfg, st, p, dest, put);
            Shaped(cfg, st') && HeldBack(cfg, st', a, b) && st'[a].snaps == st[a].snaps
  {
    CommPutShaped(cfg, st, p, dest, put);
  }

  lemma ControlHolds(cfg: Config, st: State, p: nat, dest: nat, put: Put, ctl: Control, a: nat, b: nat)
    requires Shaped(cfg, st) && p < |st| && dest < |st| && PutShaped(cfg, put)
    requires a < cfg.N() && b < cfg.N() && HeldBack(cfg, st, a, b)
    requires Shaped(cfg, WithControl(CommPut(cfg, st, p, dest, put), p, ctl))
    ensures var st' := WithControl(CommPut(cfg, st, p, dest, put), p, ctl);
            HeldBack(cfg, st', a, b) && st'[a].snaps == st[a].snaps
  {
    CommPutHolds(cfg, st, p, dest, put, a, b);
  }

  lemma WorkHolds(cfg: Config, st: State, act: Action, a: nat, b: nat)
    requires Shaped(cfg, st) && Can(cfg, st, act) && (act.Work? || act.WorkNbi?) && Shaped(cfg, Do(cfg, st, act))
    requires a < cfg.N() && b < cfg.N() && HeldBack(cfg, st, a, b)
    ensures var st' := Do(cfg, st, act); HeldBack(cfg, st', a, b) && st'[a].snaps == st[a].snaps
  {
    var p := act.p;
    var job := st[p].workQ[0];
    assert PeShaped(cfg, st[p]) && JobShaped(cfg, job);
    assert p == b ==> FromOrigin(st[p].workQ[1..], a) == [] && !(job.Received? && job.origin == a);
    if act.WorkNbi? {
      var pe := NbiTaken(st[p]);
      assert PeShaped(cfg, pe);
      CommPutHolds(cfg, st[p := pe], p, job.dest, Data(job.offset, act.source), a, b);
    }
  }

  lemma RecvHolds(cfg: Config, st: State, c: nat, d: nat, a: nat, b: nat)
    requires Shaped(cfg, st) && Can(cfg, st, Recv(c, d)) && (c, d) != (a, b) && Shaped(cfg, Do(cfg, st, Recv(c, d)))
    requires a < cfg.N() && b < cfg.N() && HeldBack(cfg, st, a, b)
    ensures var st' := Do(cfg, st, Recv(c, d)); HeldBack(cfg, st', a, b) && st'[a].snaps == st[a].snaps
  {
    FromOriginAppend(st[b].workQ, Received(c, st[c].wire[d][0]), a);
  }

  lemma UserThreadHolds(cfg: Config, st: State, act: Action, a: nat, b: nat)
    requires Shaped(cfg, st) && Can(cfg, st, act) && Shaped(cfg, Do(cfg, st, act))
    requires act.See? || act.Leave? || act.SeeNext? || act.Collect? || act.Turn? || act.Done? || act.Send?
    requires a < cfg.N() && b < cfg.N() && HeldBack(cfg, st, a, b)
    ensures var st' := Do(cfg, st, act); HeldBack(cfg, st', a, b) && st'[a].snaps == st[a].snaps
  {
    hide PeShaped, FromOrigin;
  }

  /** Every runtime step but reading that socket leaves it held back. */
  lemma StepHolds(cfg: Config, st: State, act: Action, a: nat, b: nat)
    requires Shaped(cfg, st) && Can(cfg, st, act) && Internal(act) && act != Recv(a, b) && Shaped(cfg, Do(cfg, st, act))
    requires a < cfg.N() && b < cfg.N() && HeldBack(cfg, st, a, b)
    ensures var st' := Do(cfg, st, act); HeldBack(cfg, st', a, b) && st'[a].snaps == st[a].snaps
  {
    match act
    case Arrive(p) => ControlHolds(cfg, st, p, 0, Flag(p), Waiting, a, b);
    case Release =>
      var i := st[0].ctl.next;
      ControlHolds(cfg, st, 0, i, Flag(i), Releasing(i + 1), a, b);
    case Recv(c, d) => RecvHolds(cfg, st, c, d, a, b);
    case Work(p) => WorkHolds(cfg, st, act, a, b);
    case WorkNbi(p, source) => WorkHolds(cfg, st, act, a, b);
    case _ => UserThreadHolds(cfg, st, act, a, b);
  }

  /** One such step, chosen while somebody has not left call k. */
  lemma DriveStep(cfg: Config, st: State, k: nat, p: nat, a: nat, b: nat) returns (act: Action)
    requires Inv(cfg, st) && a != 0 && b != 0 && a < cfg.N() && b < cfg.N() && HeldBack(cfg, st, a, b)
    requires forall q :: 0 <= q < |st| ==> st[q].entered >= k
    requires p < |st| && Left(st[p]) < k
    ensures Can(cfg, st, act) && Inv(cfg, Do(cfg, st, act)) && HeldBack(cfg, Do(cfg, st, act), a, b)
    ensures Do(cfg, st, act)[a].snaps == st[a].snaps
    ensures forall q :: 0 <= q < |Do(cfg, st, act)| ==> Do(cfg, st, act)[q].entered >= k
    ensures 0 <= TotalLoad(cfg.N(), Do(cfg, st, act)) < TotalLoad(cfg.N(), st)
  {
    act := BarrierEnabled(cfg, st, k, p, a, b, cfg.N());
    InvNonempty(cfg, st);
    assert PeOk(cfg.N(), 0, st[0]);
    hide *;
    StepKeeps(cfg, st, act);
    InvNonempty(cfg, Do(cfg, st, act));
    StepHolds(cfg, st, act, a, b);
    LoadsNonNegative(cfg, Do(cfg, st, act));
    InternalDrops(cfg, st, act);
    EnteredStays(cfg, st, act);
  }

  /** A run in which everybody leaves barrier call k while the channel stays held back. */
  lemma {:induction false} DriveBarrier(cfg: Config, st: State, k: nat, a: nat, b: nat)
    returns (acts: seq<Action>, st': State)
    requires Inv(cfg, st) && a != 0 && b != 0 && a < cfg.N() && b < cfg.N() && HeldBack(cfg, st, a, b)
    requires forall q :: 0 <= q < |st| ==> st[q].entered >= k
    ensures Runs(cfg, st, acts, st') && Inv(cfg, st') && HeldBack(cfg, st', a, b)
    ensures st'[a].snaps == st[a].snaps
    ensures forall q :: 0 <= q < |st'| ==> Left(st'[q]) >= k
    decreases TotalLoad(cfg.N(), st)
  {
    if p :| 0 <= p < |st| && Left(st[p]) < k {
      var act := DriveStep(cfg, st, k, p, a, b);
      var more: seq<Action>;
      more, st' := DriveBarrier(cfg, Do(cfg, st, act), k, a, b);
      RunsCons(cfg, st, act, more, st');
      acts := [act] + more;
    } else {
      acts, st' := [], st;
    }
  }

  lemma EnteredStays(cfg: Config, st: State, act: Action)
    requires Shaped(cfg, st) && Can(cfg, st, act) && Internal(act)
    ensures var st' := Do(cfg, st, act); |st'| == |st| && forall q :: 0 <= q < |st| ==> st'[q].entered == st[q].entered
  {
    var st' := Do(cfg, st, act);
    forall q | 0 <= q < |st| ensures st'[q].entered == st[q].entered {
      EnteredStaysAt(cfg, st, act, q);
    }
  }

  lemma EnteredStaysAt(cfg: Config, st: State, act: Action, q: nat)
    requires Shaped(cfg, st) && Can(cfg, st, act) && Internal(act) && q < |st|
    ensures Do(cfg, st, act)[q].entered == st[q].entered
  {}

  lemma CallBegins(cfg: Config, st: State, p: nat)
    requires Inv(cfg, st) && p < |st| && st[p].ctl.Out?
    ensures Shaped(cfg, st) && Can(cfg, st, Enter(p)) && Do(cfg, st, Enter(p)) == st[p := CallBegun(p, st[p])]
    ensures Inv(cfg, Do(cfg, st, Enter(p)))
  {
    StepKeeps(cfg, st, Enter(p));
  }

  /** PEs p, p+1, ... make a barrier call one after the other. */
  lemma {:induction false} EnterFrom(cfg: Config, st: State, p: nat)
    returns (acts: seq<Action>, st': State)
    requires Inv(cfg, st) && p <= |st| && forall q :: p <= q < |st| ==> st[q].ctl.Out?
    ensures Runs(cfg, st, acts, st') && Inv(cfg, st') && |st'| == |st|
    ensures forall q :: 0 <= q < |st| ==> st'[q] == if q < p then st[q] else CallBegun(q, st[q])
    decreases |st| - p
  {
    hide Inv, Do, Can, CallBegun, Shaped;
    if p == |st| {
      acts, st' := [], st;
    } else {
      CallBegins(cfg, st, p);
      var more: seq<Action>;
      more, st' := EnterFrom(cfg, Do(cfg, st, Enter(p)), p + 1);
      RunsCons(cfg, st, Enter(p), more, st');
      acts := [Enter(p)] + more;
    }
  }

  lemma FirstPut(cfg: Config, a: nat, b: nat, put: Put) returns (acts: seq<Action>, st: State)
    requires a < cfg.N() && b < cfg.N() && !cfg.Local(a, b) && InBounds(cfg.size, put)
    ensures Runs(cfg, Init(cfg), acts, st) && Inv(cfg, st)
    ensures forall q :: 0 <= q < |st| ==> st[q].entered == 0 && st[q].ctl.Out? && st[q].snaps == []
    ensures st[a].handed[b] == [put] && st[b].got[a] == [] && st[b].workQ == []
  {
    InitInv(cfg);
    var st0 := Init(cfg);
    var act := UserPut(a, b, put);
    StepKeeps(cfg, st0, act);
    acts, st := [act], Do(cfg, st0, act);
    assert Runs(cfg, st, [], st);
    hide Inv, Shaped, Runs;
    RunsCons(cfg, st0, act, [], st);
  }

  /** Everybody has made the first barrier call, after a put that is still in a's send queue. */
  lemma EnteredWithPut(cfg: Config, a: nat, b: nat, put: Put) returns (acts: seq<Action>, st: State)
    requires a < cfg.N() && b < cfg.N() && !cfg.Local(a, b) && InBounds(cfg.size, put)
    ensures Runs(cfg, Init(cfg), acts, st) && Inv(cfg, st) && HeldBack(cfg, st, a, b)
    ensures forall q :: 0 <= q < |st| ==> st[q].entered >= 1
    ensures |st[a].snaps| == 1 && b < |st[a].snaps[0]| && st[a].snaps[0][b] == [put]
  {
    var first, st1 := FirstPut(cfg, a, b, put);
    var enters: seq<Action>;
    enters, st := EnterFrom(cfg, st1, 0);
    acts := RunsAppend(cfg, Init(cfg), first, st1, enters, st);
    assert PeShaped(cfg, st[a]);
  }

  /** For every pair outside the guarantee and every put: a run in which all PEs leave their
      first barrier while a put made before it has not reached b. */
  lemma LeavesPutBehind(cfg: Config, a: nat, b: nat, put: Put)
    returns (acts: seq<Action>, st: State)
    requires a < cfg.N() && b < cfg.N() && !Covered(cfg, a, b) && InBounds(cfg.size, put)
    ensures Runs(cfg, Init(cfg), acts, st) && |st| == cfg.N()
    ensures forall q :: 0 <= q < |st| ==> Left(st[q]) >= 1
    ensures a < |st[b].got| && 0 < |st[a].snaps| && b < |st[a].snaps[0]|
    ensures st[a].snaps[0][b] == [put] && st[b].got[a] == []
    ensures !Complete(st, a, b, 0)
  {
    var before, st1 := EnteredWithPut(cfg, a, b, put);
    var drive: seq<Action>;
    drive, st := DriveBarrier(cfg, st1, 1, a, b);
    acts := RunsAppend(cfg, Init(cfg), before, st1, drive, st);
  }

  /** The barrier completes what a handed to comm_put for b before it, in every run, exactly when
      PE 0 is one of the two or both run on one host. */
  lemma GuaranteeExactly(cfg: Config, a: nat, b: nat)
    requires a < cfg.N() && b < cfg.N()
    ensures Guaranteed(cfg, a, b) <==> Covered(cfg, a, b)
  {
    if Covered(cfg, a, b) {
      forall acts: seq<Action>, st: State, k: nat | Runs(cfg, Init(cfg), acts, st) ensures Complete(st, a, b, k) {
        InitInv(cfg);
        RunKeeps(cfg, Init(cfg), acts, st);
        assert PeShaped(cfg, st[b]);
        if k < Left(st[b]) { DataBeforeBarrier(cfg, st, a, b, k); }
      }
    } else {
      var acts, st := LeavesPutBehind(cfg, a, b, Data(0, []));
    }
  }

  // ---- Which puts arrive at all ----

  /** Puts between PEs that wire-up left unconnected never arrive, in any run; for all other
      pairs nothing is lost, repeated or overtaken: of the puts that the actions of the run made,
      what arrived is a prefix, and what is missing from it is in flight, in order. */
  lemma DeliveryExactly(cfg: Config, acts: seq<Action>, st: State, a: nat, b: nat)
    requires cfg.N() > 0 && Runs(cfg, Init(cfg), acts, st) && a < cfg.N() && b < cfg.N()
    ensures Shaped(cfg, st)
    ensures if cfg.pl.Remote(a, b) && !Splits(a, b) then st[b].got[a] == []
            else HandedIn(cfg, Init(cfg), acts, a, b) == st[b].got[a] + InFlight(a, b, st[a], st[b])
  {
    RecordsAreActions(cfg, acts, st, a, b);
    hide HandedIn, Runs, Init;
    assert Flow(cfg, a, b, st[a], st[b]);
  }
}
